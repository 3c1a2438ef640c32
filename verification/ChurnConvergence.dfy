// Which pairs of clients complete the handshake when clients came and went before: exactly those
// for which no earlier session left a HELLO followed by a signed message on the way.
module ChurnConvergence {
  import opened Wrappers
  import opened Text
  import opened Crypto
  import opened Messages
  import opened Validation
  import opened Handshake
  import opened Sessions
  import opened Evidence
  import opened HonestNetwork
  import opened HonestAgreement
  import opened Provenance
  import Convergence
  import S = Sketches
  import Base64

  // ---- Sketching a client ------------------------------------------------------------------------------

  // The acknowledged session ID was drawn by the owner of this key.
  ghost predicate AckFor(h: History, own: PublicKey, m: Msg) {
    m.KeyExchangeAck? && exists r :: r in h.keys && r.sessionId == m.sessionId && r.signer == own
  }

  ghost function TokenOf(h: History, own: Identity, m: Msg): S.Token {
    if m.Hello? then S.Greeting else S.Sealed(KeyFor(h, own.encryption, m) || AckFor(h, own.signing, m))
  }

  ghost function EntryOf(h: History, own: Identity, item: Item): S.Entry {
    match item
    case PeerJoined => S.Joins
    case PeerLeft => S.Leaves
    case Relayed(m) => S.Line(TokenOf(h, own, m))
  }

  ghost function SketchedInbox(h: History, own: Identity, inbox: seq<Item>): (r: seq<S.Entry>)
    ensures |r| == |inbox|
  {
    if inbox == [] then [] else [EntryOf(h, own, inbox[0])] + SketchedInbox(h, own, inbox[1..])
  }

  ghost function SketchedLines(h: History, reader: Identity, outbox: seq<Msg>): (r: seq<S.Token>)
    ensures |r| == |outbox|
  {
    if outbox == [] then [] else [TokenOf(h, reader, outbox[0])] + SketchedLines(h, reader, outbox[1..])
  }

  function PhaseOf(s: Session): S.Phase {
    match s.state
    case NoSession => S.Idle
    case HelloExchanged => S.Greeted
    case KeySent => S.Greeted
    case Established => S.Done
    case _ => S.Broken
  }

  ghost function SketchOf(h: History, c: Client, peer: Identity): S.Sketch {
    S.Sketch(c.session.role, S.Settle(PhaseOf(c.session), !Departed(c.inbox)), c.session.helloSent,
             SketchedInbox(h, c.session.identity, c.inbox), SketchedLines(h, peer, c.outbox))
  }

  // ---- Sequences ------------------------------------------------------------------------------------------

  lemma {:induction false} EntriesAppend(h: History, own: Identity, inbox: seq<Item>, item: Item)
    ensures SketchedInbox(h, own, inbox + [item]) == SketchedInbox(h, own, inbox) + [EntryOf(h, own, item)]
  {
    if inbox == [] {
      assert inbox + [item] == [item];
      assert [item][1..] == [];
    } else {
      assert (inbox + [item])[1..] == inbox[1..] + [item];
      EntriesAppend(h, own, inbox[1..], item);
    }
  }

  lemma {:induction false} TokensConcat(h: History, reader: Identity, xs: seq<Msg>, ys: seq<Msg>)
    ensures SketchedLines(h, reader, xs + ys) == SketchedLines(h, reader, xs) + SketchedLines(h, reader, ys)
  {
    hide TokenOf;
    if xs == [] {
      assert xs + ys == ys;
    } else {
      assert (xs + ys)[1..] == xs[1..] + ys;
      TokensConcat(h, reader, xs[1..], ys);
    }
  }

  lemma {:induction false} EntriesLeave(h: History, own: Identity, inbox: seq<Item>)
    ensures S.Leaves in SketchedInbox(h, own, inbox) <==> Departed(inbox)
  {
    hide TokenOf;
    if inbox != [] {
      EntriesLeave(h, own, inbox[1..]);
      assert inbox == [inbox[0]] + inbox[1..];
    }
  }

  // ---- Records that grow do not change what a line is -----------------------------------------------------

  lemma AuthoredIsRecorded(env: Env, h: History, ledger: Ledger, used: set<PublicKey>, role: Role, id: Identity, m: Msg)
    returns (r: Option<KeyRecord>)
    requires SentBy(env, h, ledger, role, id, m) && HistoryOk(h, used)
    ensures !m.Hello? ==> r.Some? && r.value in h.keys && r.value.sessionId == m.sessionId
  {
    hide RelayAccepts, HelloBy, Base64.Decode, Base64.IsShaped, KeyData, AckData;
    r := None;
    if m.KeyExchange? {
      var q :| q in h.keys && q.signer == id.signing && IsKeyMessage(ledger, m, q);
      r := Some(q);
    } else if m.KeyExchangeAck? {
      var k :| k in h.acks && k.signer == id.signing && IsAckMessage(ledger, m, k);
      var q :| q in h.keys && q.sessionId == k.sessionId;
      r := Some(q);
    }
  }

  lemma RecordedTokenStays(h: History, h': History, own: Identity, m: Msg, r: Option<KeyRecord>)
    requires !m.Hello? ==> r.Some? && r.value in h.keys && r.value.sessionId == m.sessionId
    requires h.keys <= h'.keys && IdsUnique(h')
    ensures TokenOf(h', own, m) == TokenOf(h, own, m)
  {
    if !m.Hello? {
      assert r.value in h'.keys;
    }
  }

  lemma TokenStays(env: Env, h: History, ledger: Ledger, h': History, used: set<PublicKey>, role: Role, id: Identity,
                   own: Identity, m: Msg)
    requires SentBy(env, h, ledger, role, id, m) && HistoryOk(h, used)
    requires h.keys <= h'.keys && IdsUnique(h')
    ensures TokenOf(h', own, m) == TokenOf(h, own, m)
  {
    hide SentBy, HistoryOk, IdsUnique, TokenOf;
    var r := AuthoredIsRecorded(env, h, ledger, used, role, id, m);
    RecordedTokenStays(h, h', own, m, r);
  }

  lemma {:induction false} EntriesStay(env: Env, h: History, ledger: Ledger, h': History, used: set<PublicKey>,
                                       sender: Role,
                                       senders: seq<Identity>, own: Identity, inbox: seq<Item>)
    requires InboxTraced(env, h, ledger, sender, senders, inbox) && HistoryOk(h, used)
    requires h.keys <= h'.keys && IdsUnique(h')
    ensures SketchedInbox(h', own, inbox) == SketchedInbox(h, own, inbox)
    decreases |inbox|
  {
    hide SentBy, HistoryOk, IdsUnique, TokenOf;
    if inbox != [] {
      match inbox[0]
      case PeerLeft => EntriesStay(env, h, ledger, h', used, sender, senders[1..], own, inbox[1..]);
      case PeerJoined => EntriesStay(env, h, ledger, h', used, sender, senders, own, inbox[1..]);
      case Relayed(m) =>
        TokenStays(env, h, ledger, h', used, sender, senders[0], own, m);
        EntriesStay(env, h, ledger, h', used, sender, senders, own, inbox[1..]);
    }
  }

  lemma {:induction false} TokensStay(env: Env, h: History, ledger: Ledger, h': History, used: set<PublicKey>,
                                      role: Role,
                                      id: Identity, reader: Identity, outbox: seq<Msg>)
    requires OutboxTraced(env, h, ledger, role, id, outbox) && HistoryOk(h, used)
    requires h.keys <= h'.keys && IdsUnique(h')
    ensures SketchedLines(h', reader, outbox) == SketchedLines(h, reader, outbox)
  {
    hide SentBy, HistoryOk, IdsUnique, TokenOf;
    if outbox != [] {
      TokenStays(env, h, ledger, h', used, role, id, reader, outbox[0]);
      assert forall m :: m in outbox[1..] ==> m in outbox;
      TokensStay(env, h, ledger, h', used, role, id, reader, outbox[1..]);
    }
  }

  // ---- Handling a line, sketched ---------------------------------------------------------------------------

  // Whether the primitives a client may need for its next message work.
  predicate Works(role: Role, coins: Coins) {
    if role == ClientA then coins.key.Some? else coins.ackSignature.Some?
  }

  // The outcome of a line is the reaction of the sketch to its token.
  ghost predicate Reacts(h: History, h': History, s: Session, o: Outcome, m: Msg, peer: Identity, current: bool,
                         works: bool) {
    var r := S.React(s.role, S.Settle(PhaseOf(s), current), s.helloSent, S.Line(TokenOf(h, s.identity, m)), current,
                     works);
    && S.Settle(PhaseOf(o.session), current) == S.Settle(r.phase, current)
    && o.session.helloSent == r.sent
    && SketchedLines(h', peer, o.result.outgoing) == r.written
  }

  lemma HelloTokens(env: Env, h: History, peer: Identity, s: Session)
    ensures SketchedLines(h, peer, OwnHelloOnce(env, s)) == S.HelloOnce(s.helloSent)
  {
    hide TokenOf, OwnHello;
    if !s.helloSent {
      HelloIsGreeting(env, h, peer, s);
      assert [OwnHello(env, s)][1..] == [];
    }
  }

  lemma HelloIsGreeting(env: Env, h: History, peer: Identity, s: Session)
    ensures TokenOf(h, peer, OwnHello(env, s)) == S.Greeting
  {
  }

  lemma OneToken(h: History, peer: Identity, m: Msg)
    ensures SketchedLines(h, peer, [m]) == [TokenOf(h, peer, m)]
  {
    hide TokenOf;
    assert [m][1..] == [];
  }

  lemma ResponderReactsToHello(env: Env, h: History, ledger: Ledger, s: Session, m: Msg, coins: Coins, id: Identity,
                               peer: Identity,
                               current: bool, works: bool)
    requires HelloBy(env, id, m) && WellFormed(env, m) && m.sender == Name(Peer(s.role)) && s.role == ClientB
    ensures var o := OnMessage(env, ledger, s, m, coins);
            Reacts(h, Recorded(h, s, o, coins), s, o, m, peer, current, works)
  {
    hide OnMessage, WellFormed, HelloBy, SketchedLines, Name;
    ResponderGreeted(env, ledger, s, m, coins, id);
    IsHello(env, id, m);
    HelloTokens(env, h, peer, s);
    assert SketchedLines(h, peer, []) == [];
  }

  lemma IsHello(env: Env, id: Identity, m: Msg)
    requires HelloBy(env, id, m)
    ensures m.Hello?
  {
  }

  lemma InitiatorReactsToHello(env: Env, h: History, ledger: Ledger, used: set<PublicKey>, s: Session, m: Msg,
                               coins: Coins, id: Identity,
                               peer: Identity, current: bool)
    requires HelloBy(env, id, m) && WellFormed(env, m) && m.sender == Name(Peer(s.role)) && s.role == ClientA && Inv(s)
    requires Sound(h, ledger, used) && LawfulCoins(env, h, ledger, s, m, coins) && GoodIdentity(env, s.identity)
    requires MIN_MODULUS_LENGTH <= env.modulusBits(id.encryption) <= 8192
    requires (id.encryption == peer.encryption) <==> current
    ensures var o := OnMessage(env, ledger, s, m, coins);
            Reacts(h, Recorded(h, s, o, coins), s, o, m, peer, current, coins.key.Some?)
  {
    hide OnMessage, WellFormed, ParsePem, SketchedLines, Name, LawfulKeyCoins, GoodIdentity, Sound, ImportPublicKey,
         OwnHello, Hex;
    assert SketchedLines(h, peer, []) == [];
    if s.state != NoSession {
      HelloIgnored(env, ledger, s, m, coins);
    } else {
      HelloImportsTo(env, id, m);
      ModuliOf(env, s.identity);
      InitiatorGreeted(env, ledger, s, m, coins, id);
      if coins.key.Some? {
        CreatedToken(env, h, ledger, used, s, m, coins, id, peer);
      }
    }
  }

  // The KEY_EXCHANGE just created is the peer's own exactly when it was made for the peer's key.
  lemma CreatedToken(env: Env, h: History, ledger: Ledger, used: set<PublicKey>, s: Session, m: Msg, coins: Coins,
                     id: Identity,
                     peer: Identity)
    requires OnMessage(env, ledger, s, m, coins).result.event == KeyExchangeSent && Sound(h, ledger, used)
    requires OnMessage(env, ledger, s, m, coins).session.peerEncryption == Some(id.encryption)
    requires Inv(s) && WellFormed(env, m) && LawfulCoins(env, h, ledger, s, m, coins)
    ensures var o := OnMessage(env, ledger, s, m, coins);
            SketchedLines(Recorded(h, s, o, coins), peer, o.result.outgoing) ==
              S.HelloOnce(s.helloSent) + [S.Sealed(id.encryption == peer.encryption)]
  {
    hide OnMessage, WellFormed, SketchedLines, TokenOf, LawfulCoins, OwnHelloOnce, SignaturesExplained, WrapsRecorded,
         RecordsValid, Hex, KeyData,
         ImportPublicKey, KeyText, Base64.Encode, Name;
    var o := OnMessage(env, ledger, s, m, coins);
    var h' := Recorded(h, s, o, coins);
    StepKeepsSound(env, h, ledger, used, s, m, coins);
    KeyExchangeSentCreates(env, h, ledger, s, m, coins);
    SentWhenCreating(env, ledger, s, m, coins);
    var c := coins.key.value;
    var ke := o.result.outgoing[|o.result.outgoing| - 1];
    assert o.result.outgoing == OwnHelloOnce(env, s) + [ke];
    var r := KeyRecord(s.identity.signing, id.encryption, Hex(c.idBytes), c.ciphertext, c.sessionKey);
    TokensConcat(h', peer, OwnHelloOnce(env, s), [ke]);
    HelloTokens(env, h', peer, s);
    OneToken(h', peer, ke);
    KeyToken(h', peer, ke, r);
  }

  lemma KeyToken(h: History, own: Identity, m: Msg, r: KeyRecord)
    requires m.KeyExchange? && r in h.keys && r.sessionId == m.sessionId && IdsUnique(h)
    ensures TokenOf(h, own, m) == S.Sealed(r.recipient == own.encryption)
  {
  }

  lemma AckToken(h: History, own: Identity, m: Msg, r: KeyRecord)
    requires m.KeyExchangeAck? && r in h.keys && r.sessionId == m.sessionId && IdsUnique(h)
    ensures TokenOf(h, own, m) == S.Sealed(r.signer == own.signing)
  {
  }

  lemma ResponderReactsToKey(env: Env, h: History, ledger: Ledger, used: set<PublicKey>, s: Session, m: Msg,
                             coins: Coins, id: Identity,
                             peer: Identity, current: bool)
    requires Sound(h, ledger, used) && KeyBy(h, ledger, id.signing, m) && m.KeyExchange?
    requires RelayAccepts(env, ClientA, m)
    requires s.role == ClientB && Inv(s) && LawfulCoins(env, h, ledger, s, m, coins)
    requires env.modulusBits(s.identity.signing) >= MIN_MODULUS_LENGTH
    requires s.state != NoSession ==>
      id.signing in used && s.peerSigning == Some(id.signing) && ((id.signing == peer.signing) <==> current)
    ensures var o := OnMessage(env, ledger, s, m, coins);
            Reacts(h, Recorded(h, s, o, coins), s, o, m, peer, current, coins.ackSignature.Some?)
  {
    hide OnMessage, SketchedLines, Name, Sound, RelayAccepts, LawfulCoins, KeyBy;
    assert SketchedLines(h, peer, []) == [];
    if s.state != HelloExchanged {
      SignedIgnored(env, ledger, s, m, coins);
    } else {
      ResponderKeyed(env, h, ledger, used, s, m, coins, id.signing);
      if KeyFor(h, s.identity.encryption, m) && coins.ackSignature.Some? {
        AcceptedToken(env, h, ledger, used, s, m, coins, id.signing, peer);
      }
    }
  }

  // The acknowledgement just made is the peer's own exactly when the peer signed the key.
  lemma AcceptedToken(env: Env, h: History, ledger: Ledger, used: set<PublicKey>, s: Session, m: Msg, coins: Coins,
                      signer: PublicKey,
                      peer: Identity)
    requires OnMessage(env, ledger, s, m, coins).result.event == SessionEstablished && s.role == ClientB
    requires m.KeyExchange?
    requires Sound(h, ledger, used) && KeyBy(h, ledger, signer, m)
    ensures var o := OnMessage(env, ledger, s, m, coins);
            SketchedLines(Recorded(h, s, o, coins), peer, o.result.outgoing) == [S.Sealed(signer == peer.signing)]
  {
    hide OnMessage, SketchedLines, TokenOf, Name, SignaturesExplained, WrapsRecorded, RecordsValid, Base64.Encode,
         Base64.Decode,
         Base64.IsShaped, KeyData;
    var o := OnMessage(env, ledger, s, m, coins);
    SentWhenAccepting(env, ledger, s, m, coins);
    var ack := o.result.outgoing[0];
    var r :| r in h.keys && r.signer == signer && IsKeyMessage(ledger, m, r);
    var h' := Recorded(h, s, o, coins);
    assert h'.keys == h.keys by { AcceptanceAddsNoKey(h, s, o, coins); }
    OneToken(h', peer, ack);
    AckToken(h', peer, ack, r);
  }

  lemma AcceptanceAddsNoKey(h: History, s: Session, o: Outcome, coins: Coins)
    requires o.result.event == SessionEstablished
    ensures Recorded(h, s, o, coins).keys == h.keys
  {
  }

  lemma InitiatorReactsToAck(env: Env, h: History, ledger: Ledger, s: Session, m: Msg, coins: Coins, id: Identity,
                             peer: Identity,
                             current: bool, works: bool)
    requires AckBy(h, ledger, id.signing, m) && m.KeyExchangeAck? && RelayAccepts(env, ClientB, m)
    requires s.role == ClientA && Inv(s)
    requires s.state != NoSession ==> s.peerSigning == Some(id.signing)
    requires current && s.state == KeySent ==> (AckFor(h, s.identity.signing, m) <==> s.sessionId == Some(m.sessionId))
    ensures var o := OnMessage(env, ledger, s, m, coins);
            Reacts(h, Recorded(h, s, o, coins), s, o, m, peer, current, works)
  {
    hide OnMessage, SketchedLines, Name, RelayAccepts, AckBy;
    assert SketchedLines(h, peer, []) == [];
    if s.state != KeySent {
      SignedIgnored(env, ledger, s, m, coins);
    } else {
      InitiatorAcked(env, h, ledger, s, m, coins, id.signing);
    }
  }

  // ---- Deliveries, sketched ----------------------------------------------------------------------------------

  // The author of the line at the head is the present peer exactly when no departure is left to handle.
  lemma HeadIsCurrent(env: Env, net: Net, authors: Authors, role: Role)
    requires NetInv(env, net) && NetTraced(env, net, authors) && role in net.slots && Peer(role) in net.slots
    requires net.slots[role].inbox != [] && net.slots[role].inbox[0].Relayed?
    ensures var c, senders, peer := net.slots[role], AuthorsOf(authors, role), net.slots[Peer(role)].session.identity;
            && senders != []
            && (c.session.state != NoSession ==> ((senders[0].signing == peer.signing) <==> !Departed(c.inbox)))
            && (c.inbox[0].m.Hello? ==> ((senders[0].encryption == peer.encryption) <==> !Departed(c.inbox)))
  {
    hide GoodIdentity, Sound, HistoryOk, PairOk, Inv, SessionRecorded, OutboxOk, WellFormed, SentBy, AckedForOwn,
         InboxTraced,
         OutboxTraced, Departures, ImportPublicKey;
    PartsOfSlot(env, net, role);
    var c, senders, partner := net.slots[role], AuthorsOf(authors, role), Occupant(net, Peer(role));
    assert SlotTraced(env, net, authors, role);
    HeadSentBy(env, net.history, net.ledger, partner, role, c, senders);
    DeparturesMeanDeparted(c.inbox);
    DepartedTail(c.inbox);
    if c.inbox[0].m.Hello? {
      HelloKeys(env, net.used, partner, c.inbox);
      HeadHello(env, net.history, net.ledger, Peer(role), senders[0], c.inbox[0].m);
      HelloImportsTo(env, senders[0], c.inbox[0].m);
    }
  }

  // Among clients that know only each other, an acknowledgement is the initiator's own exactly when
  // it names the session it waits on.
  lemma OwnAckExactly(env: Env, net: Net, authors: Authors)
    requires NetInv(env, net) && NetTraced(env, net, authors) && ClientA in net.slots && ClientB in net.slots
    requires net.slots[ClientA].inbox != [] && net.slots[ClientA].inbox[0].Relayed?
    requires net.slots[ClientA].inbox[0].m.KeyExchangeAck?
    requires net.slots[ClientA].session.state == KeySent && !Departed(net.slots[ClientA].inbox)
    ensures var a := net.slots[ClientA];
            AckFor(net.history, a.session.identity.signing, a.inbox[0].m) <==>
              a.session.sessionId == Some(a.inbox[0].m.sessionId)
  {
    hide GoodIdentity, SignaturesExplained, WrapsRecorded, RecordsValid, HistoryOk, InboxOk, OutboxOk, WellFormed,
         RelayAccepts, InboxTraced,
         OutboxTraced, Departures, SessionKeysOk, Inv;
    var a, b, h := net.slots[ClientA], net.slots[ClientB], net.history;
    var m := a.inbox[0].m;
    HeadFacts(env, net, authors, ClientA);
    HeadIsPresent(env, net, authors, ClientA);
    assert SlotOk(env, net, ClientA) && SlotTraced(env, net, authors, ClientB);
    var ra :| RecordMatches(h, ra, a.session, a.session.identity.signing, a.session.peerEncryption);
    if r :| r in h.keys && r.sessionId == m.sessionId && r.signer == a.session.identity.signing {
      var k :| k in h.acks && k.signer == b.session.identity.signing && IsAckMessage(net.ledger, m, k);
      assert AckedForOwn(h, b.session.identity);
      assert KeyIsCurrent(h, a, b);
    }
  }

  lemma HeadIsPresent(env: Env, net: Net, authors: Authors, role: Role)
    requires NetTraced(env, net, authors) && role in net.slots && Peer(role) in net.slots
    requires !Departed(net.slots[role].inbox)
    ensures AuthorsOf(authors, role) == [net.slots[Peer(role)].session.identity]
  {
    hide AckedForOwn, InboxTraced, OutboxTraced, Departures, PeerTraced;
    assert SlotTraced(env, net, authors, role);
    DeparturesMeanDeparted(net.slots[role].inbox);
  }

  lemma LineReacts(env: Env, net: Net, authors: Authors, role: Role, coins: Coins)
    requires NetInv(env, net) && NetTraced(env, net, authors) && Enabled(env, net, Deliver(role, coins))
    requires Peer(role) in net.slots && net.slots[role].inbox[0].Relayed?
    ensures var c := net.slots[role];
            var m := c.inbox[0].m;
            var o := OnMessage(env, net.ledger, c.session, m, coins);
            Reacts(net.history, Recorded(net.history, c.session, o, coins), c.session, o, m,
                   net.slots[Peer(role)].session.identity,
                   !Departed(c.inbox), Works(role, coins))
  {
    hide NetInv, NetTraced, Reacts, OnMessage, Sound, Inv, GoodIdentity, WellFormed, SentBy, LawfulCoins, Recorded,
         Works;
    var c, id, peer := net.slots[role], AuthorsOf(authors, role), net.slots[Peer(role)].session.identity;
    var m := c.inbox[0].m;
    HeadFacts(env, net, authors, role);
    HeadIsCurrent(env, net, authors, role);
    AuthorParts(env, net.history, net.ledger, Peer(role), id[0], m);
    ModuliOf(env, c.session.identity);
    WorksMeans(coins);
    if m.Hello? && role == ClientA {
      InitiatorReactsToHello(env, net.history, net.ledger, net.used, c.session, m, coins, id[0], peer,
                             !Departed(c.inbox));
    } else if m.Hello? {
      ResponderReactsToHello(env, net.history, net.ledger, c.session, m, coins, id[0], peer, !Departed(c.inbox),
                             Works(role, coins));
    } else if m.KeyExchange? {
      ResponderReactsToKey(env, net.history, net.ledger, net.used, c.session, m, coins, id[0], peer,
                           !Departed(c.inbox));
    } else {
      if !Departed(c.inbox) && c.session.state == KeySent {
        OwnAckExactly(env, net, authors);
      }
      InitiatorReactsToAck(env, net.history, net.ledger, c.session, m, coins, id[0], peer, !Departed(c.inbox),
                           Works(role, coins));
    }
  }

  lemma WorksMeans(coins: Coins)
    ensures Works(ClientA, coins) == coins.key.Some? && Works(ClientB, coins) == coins.ackSignature.Some?
  {
  }

  lemma AuthorParts(env: Env, h: History, ledger: Ledger, sender: Role, id: Identity, m: Msg)
    requires SentBy(env, h, ledger, sender, id, m)
    ensures RelayAccepts(env, sender, m) && m.sender == Name(sender)
    ensures m.Hello? ==> HelloBy(env, id, m)
    ensures m.KeyExchange? ==> sender == ClientA && KeyBy(h, ledger, id.signing, m)
    ensures m.KeyExchangeAck? ==> sender == ClientB && AckBy(h, ledger, id.signing, m)
  {
    hide WellFormed, Name, HelloBy, KeyBy, AckBy;
  }

  // A client that handled a line is sketched by the sketch that took the entry.
  lemma LineSketched(env: Env, net: Net, authors: Authors, role: Role, coins: Coins)
    requires NetInv(env, net) && NetTraced(env, net, authors) && Enabled(env, net, Deliver(role, coins))
    requires Peer(role) in net.slots && net.slots[role].inbox[0].Relayed?
    ensures var c, peer := net.slots[role], net.slots[Peer(role)].session.identity;
            var o := OnMessage(env, net.ledger, c.session, c.inbox[0].m, coins);
            SketchOf(Recorded(net.history, c.session, o, coins),
                     Client(o.session, c.outbox + o.result.outgoing, c.inbox[1..]), peer)
            == S.Take(SketchOf(net.history, c, peer), Works(role, coins))
  {
    hide NetInv, NetTraced, OnMessage, Inv, GoodIdentity, WellFormed, SentBy, LawfulCoins, Recorded, Works, TokenOf,
         Sound, PhaseOf,
         InboxTraced, S.React;
    var c, peer := net.slots[role], net.slots[Peer(role)].session.identity;
    var m := c.inbox[0].m;
    var o := OnMessage(env, net.ledger, c.session, m, coins);
    var h, h' := net.history, Recorded(net.history, c.session, o, coins);
    LineReacts(env, net, authors, role, coins);
    IdentityStays(env, net.ledger, c.session, m, coins);
    GrowthOf(env, net, authors, role, coins);
    InboxStays(env, net, authors, role, h');
    TokensConcat(h', peer, c.outbox, o.result.outgoing);
    DepartedTail(c.inbox);
    EntriesLeave(h, c.session.identity, c.inbox[1..]);
    assert SketchedInbox(h, c.session.identity, c.inbox)[1..] == SketchedInbox(h, c.session.identity, c.inbox[1..]);
  }

  lemma GrowthOf(env: Env, net: Net, authors: Authors, role: Role, coins: Coins)
    requires NetInv(env, net) && NetTraced(env, net, authors) && Enabled(env, net, Deliver(role, coins))
    requires net.slots[role].inbox[0].Relayed?
    ensures var c := net.slots[role];
            var o := OnMessage(env, net.ledger, c.session, c.inbox[0].m, coins);
            var h' := Recorded(net.history, c.session, o, coins);
            net.history.keys <= h'.keys && IdsUnique(h')
  {
    hide NetInv, NetTraced, OnMessage, Inv, GoodIdentity, WellFormed, SentBy, LawfulCoins, SignaturesExplained,
         WrapsRecorded, RecordsValid,
         IdsUnique;
    var c := net.slots[role];
    HeadFacts(env, net, authors, role);
    assert LawfulCoins(env, net.history, net.ledger, c.session, c.inbox[0].m, coins);
    StepKeepsSound(env, net.history, net.ledger, net.used, c.session, c.inbox[0].m, coins);
    RecordedGrows(net.history, c.session, OnMessage(env, net.ledger, c.session, c.inbox[0].m, coins), coins);
  }

  // Records that grow change no entry of an inbox and no line of an outbox.
  lemma InboxStays(env: Env, net: Net, authors: Authors, role: Role, h': History)
    requires NetInv(env, net) && NetTraced(env, net, authors) && role in net.slots
    requires net.history.keys <= h'.keys && IdsUnique(h')
    ensures var c := net.slots[role];
            && SketchedInbox(h', c.session.identity, c.inbox) == SketchedInbox(net.history, c.session.identity, c.inbox)
            && forall reader :: SketchedLines(h', reader, c.outbox) == SketchedLines(net.history, reader, c.outbox)
  {
    hide Sound, SlotOk, PairOk, HistoryOk, IdsUnique, SketchedInbox, SketchedLines, InboxTraced, OutboxTraced,
         AckedForOwn;
    var c, senders := net.slots[role], AuthorsOf(authors, role);
    assert SlotTraced(env, net, authors, role);
    EntriesStay(env, net.history, net.ledger, h', net.used, Peer(role), senders, c.session.identity, c.inbox);
    forall reader
      ensures SketchedLines(h', reader, c.outbox) == SketchedLines(net.history, reader, c.outbox)
    {
      TokensStay(env, net.history, net.ledger, h', net.used, role, c.session.identity, reader, c.outbox);
    }
  }

  // A presence notice.
  lemma NoticeSketched(env: Env, h: History, c: Client, peer: Identity, works: bool)
    requires c.inbox != [] && !c.inbox[0].Relayed?
    ensures c.inbox[0] == PeerLeft ==>
      SketchOf(h, Client(OnPeerLeft(c.session), c.outbox, c.inbox[1..]), peer) == S.Take(SketchOf(h, c, peer), works)
    ensures c.inbox[0] == PeerJoined ==>
      var (s, r) := OnPeerJoined(env, c.session);
      SketchOf(h, Client(s, c.outbox + r.outgoing, c.inbox[1..]), peer) == S.Take(SketchOf(h, c, peer), works)
  {
    hide TokenOf, OwnHello;
    var (s, r) := OnPeerJoined(env, c.session);
    TokensConcat(h, peer, c.outbox, r.outgoing);
    HelloTokens(env, h, peer, c.session);
    DepartedTail(c.inbox);
    EntriesLeave(h, c.session.identity, c.inbox[1..]);
    assert SketchedInbox(h, c.session.identity, c.inbox)[1..] == SketchedInbox(h, c.session.identity, c.inbox[1..]);
  }

  // ---- The pair in the slots ----------------------------------------------------------------------------------

  ghost function SketchAt(net: Net, role: Role): S.Sketch
    requires role in net.slots && Peer(role) in net.slots
  {
    SketchOf(net.history, net.slots[role], net.slots[Peer(role)].session.identity)
  }

  // A client without a peer has handled everything and is fresh, or the last word it was told is
  // that its peer left.
  predicate Alone(c: Client) {
    if c.inbox == [] then c.session.state == NoSession && !c.session.helloSent else c.inbox[|c.inbox| - 1] == PeerLeft
  }

  ghost predicate Coupled(net: Net) {
    if ClientA in net.slots && ClientB in net.slots then S.Pair(SketchAt(net, ClientA), SketchAt(net, ClientB))
    else forall role :: role in net.slots ==> Alone(net.slots[role])
  }

  // A delivery in a pair is a step of the pair of sketches.
  lemma DeliverySketched(env: Env, net: Net, authors: Authors, role: Role, coins: Coins)
    requires NetInv(env, net) && NetTraced(env, net, authors) && Enabled(env, net, Deliver(role, coins))
    requires Peer(role) in net.slots
    ensures var net' := AfterDeliver(env, net, role, coins);
            && role in net'.slots && Peer(role) in net'.slots
            && SketchAt(net, role).inbox != []
            && SketchAt(net', role) == S.Take(SketchAt(net, role), Works(role, coins))
            && SketchAt(net', Peer(role)) == SketchAt(net, Peer(role))
  {
    hide NetInv, NetTraced, OnMessage, HandleMessage, LawfulCoins, SketchOf, Recorded, ToObject, WellFormed, Sound,
         Inv, GoodIdentity,
         SentBy, Works;
    var c, d := net.slots[role], net.slots[Peer(role)];
    var net' := AfterDeliver(env, net, role, coins);
    SketchInbox(net.history, c, d.session.identity);
    if c.inbox[0].Relayed? {
      HeadFacts(env, net, authors, role);
      HandleWellFormed(env, net.ledger, c.session, c.inbox[0].m, coins);
      IdentityStays(env, net.ledger, c.session, c.inbox[0].m, coins);
      LineSketched(env, net, authors, role, coins);
      GrowthOf(env, net, authors, role, coins);
      PeerSketchStays(env, net, authors, Peer(role), net'.history);
    } else {
      NoticeSketched(env, net.history, c, d.session.identity, Works(role, coins));
    }
  }

  lemma SketchInbox(h: History, c: Client, peer: Identity)
    ensures |SketchOf(h, c, peer).inbox| == |c.inbox|
    ensures SketchOf(h, c, peer).role == c.session.role
    ensures S.Leaves in SketchOf(h, c, peer).inbox <==> Departed(c.inbox)
  {
    EntriesLeave(h, c.session.identity, c.inbox);
  }

  lemma PeerSketchStays(env: Env, net: Net, authors: Authors, role: Role, h': History)
    requires NetInv(env, net) && NetTraced(env, net, authors) && role in net.slots
    requires net.history.keys <= h'.keys && IdsUnique(h')
    ensures forall peer :: SketchOf(h', net.slots[role], peer) == SketchOf(net.history, net.slots[role], peer)
  {
    hide NetInv, NetTraced, IdsUnique, SketchedInbox, SketchedLines;
    InboxStays(env, net, authors, role, h');
  }

  lemma PairStep(net: Net, net': Net, role: Role, works: bool)
    requires ClientA in net.slots && ClientB in net.slots && ClientA in net'.slots && ClientB in net'.slots
    requires Coupled(net) && SketchAt(net, role).inbox != []
    requires SketchAt(net', role) == S.Take(SketchAt(net, role), works)
    requires SketchAt(net', Peer(role)) == SketchAt(net, Peer(role))
    ensures Coupled(net')
    ensures works ==> S.SameTangles(SketchAt(net, ClientA), SketchAt(net, ClientB), SketchAt(net', ClientA),
                                    SketchAt(net', ClientB))
  {
    hide SketchOf, S.Take, S.Pair, S.SameTangles;
    if role == ClientA {
      S.TakeByA(SketchAt(net, ClientA), SketchAt(net, ClientB), works);
    } else {
      S.TakeByB(SketchAt(net, ClientA), SketchAt(net, ClientB), works);
    }
  }

  // A relayed line changes neither half of the pair.
  lemma RelaySketched(env: Env, net: Net, authors: Authors, role: Role)
    requires NetTraced(env, net, authors) && Enabled(env, net, Relay(role)) && Peer(role) in net.slots
    ensures var net' := AfterRelay(env, net, role);
            && role in net'.slots && Peer(role) in net'.slots
            && S.HalfOf(SketchAt(net', role), SketchAt(net', Peer(role)))
               == S.HalfOf(SketchAt(net, role), SketchAt(net, Peer(role)))
            && S.HalfOf(SketchAt(net', Peer(role)), SketchAt(net', role))
               == S.HalfOf(SketchAt(net, Peer(role)), SketchAt(net, role))
  {
    hide NetTraced, RelayAccepts, S.HalfOf, TokenOf;
    RelayTraced(env, net, authors, role);
    var c, d, h := net.slots[role], net.slots[Peer(role)], net.history;
    var m := c.outbox[0];
    var x, y := SketchAt(net, role), SketchAt(net, Peer(role));
    EntriesAppend(h, d.session.identity, d.inbox, Relayed(m));
    S.PassingChangesNothing(x, y);
  }

  lemma RelayStep(env: Env, net: Net, authors: Authors, role: Role)
    requires NetTraced(env, net, authors) && Enabled(env, net, Relay(role)) && Peer(role) in net.slots && Coupled(net)
    ensures var net' := AfterRelay(env, net, role);
            && ClientA in net'.slots && ClientB in net'.slots && Coupled(net')
            && S.SameTangles(SketchAt(net, ClientA), SketchAt(net, ClientB), SketchAt(net', ClientA),
                             SketchAt(net', ClientB))
  {
    hide NetTraced, S.HalfOf, SketchOf, S.Paired, RelayAccepts;
    RelaySketched(env, net, authors, role);
    assert role == ClientA || role == ClientB;
  }

  // ---- Clients that come and go -----------------------------------------------------------------------------

  // No line in flight is addressed to keys that are only being generated now.
  lemma {:induction false} NothingForNewcomer(h: History, used: set<PublicKey>, id: Identity, outbox: seq<Msg>)
    requires HistoryOk(h, used) && KeysOf(id) !! used
    ensures S.Sealed(true) !in SketchedLines(h, id, outbox)
  {
    if outbox != [] {
      NothingForNewcomer(h, used, id, outbox[1..]);
    }
  }

  // What two clients look like to each other at the moment one of them joins.
  predicate Met(stayed: S.Sketch, newcomer: S.Sketch) {
    var o, n := S.HalfOf(stayed, newcomer), S.HalfOf(newcomer, stayed);
    && o.phase == S.Idle && !o.sent && o.told && o.coming == []
    && n.phase == S.Idle && !n.sent && n.told && S.Sealed(true) !in n.coming
    && n.coming == stayed.outbox + S.Prospect(stayed.role, stayed.phase, stayed.sent, stayed.inbox)
    && o.role == stayed.role && n.role == newcomer.role
  }

  lemma ClientsMeet(h: History, used: set<PublicKey>, c: Client, role: Role, id: Identity)
    requires HistoryOk(h, used) && Alone(c) && KeysOf(id) !! used
    ensures Met(SketchOf(h, c.(inbox := c.inbox + [PeerJoined]), id),
                SketchOf(h, Client(Fresh(role, id), [], [PeerJoined]), c.session.identity))
  {
    hide HistoryOk, TokenOf, S.HalfOf, SketchedInbox, SketchedLines;
    NothingForNewcomer(h, used, id, c.outbox);
    EntriesAppend(h, c.session.identity, c.inbox, PeerJoined);
    NewcomerInbox(h, id, c.session.identity, role);
    if c.inbox != [] {
      LastEntry(h, c.session.identity, c.inbox);
    }
    var stayed := SketchOf(h, c.(inbox := c.inbox + [PeerJoined]), id);
    var newcomer := SketchOf(h, Client(Fresh(role, id), [], [PeerJoined]), c.session.identity);
    assert stayed.inbox[..|stayed.inbox| - 1] == SketchedInbox(h, c.session.identity, c.inbox);
    S.Meeting(stayed, newcomer);
    RolesOf(stayed, newcomer);
  }

  lemma NewcomerMeets(env: Env, net: Net, role: Role, id: Identity)
    requires NetInv(env, net) && Coupled(net) && Enabled(env, net, Connect(role, id)) && Peer(role) in net.slots
    ensures var net' := AfterConnect(net, role, id);
            && role in net'.slots && Peer(role) in net'.slots
            && Met(SketchAt(net', Peer(role)), SketchAt(net', role))
            && SketchAt(net', role).role == role && SketchAt(net', Peer(role)).role == Peer(role)
  {
    hide GoodIdentity, Sound, PairOk, SessionRecorded, SessionKeysOk, InboxOk, OutboxOk, Inv, Met, SketchedInbox,
         SketchedLines,
         HistoryOk;
    PartsOfSlot(env, net, Peer(role));
    assert Alone(net.slots[Peer(role)]);
    ClientsMeet(net.history, net.used, net.slots[Peer(role)], role, id);
  }

  lemma RolesOf(x: S.Sketch, y: S.Sketch)
    ensures S.HalfOf(x, y).role == x.role && S.HalfOf(y, x).role == y.role
  {
  }

  lemma NewcomerInbox(h: History, id: Identity, peer: Identity, role: Role)
    ensures var n := SketchOf(h, Client(Fresh(role, id), [], [PeerJoined]), peer);
            n.inbox == [S.Joins] && n.phase == S.Idle && !n.sent && n.outbox == []
  {
    assert [PeerJoined][1..] == [];
  }

  lemma {:induction false} LastEntry(h: History, own: Identity, inbox: seq<Item>)
    requires inbox != []
    ensures SketchedInbox(h, own, inbox)[|inbox| - 1] == EntryOf(h, own, inbox[|inbox| - 1])
  {
    hide EntryOf;
    if |inbox| > 1 {
      LastEntry(h, own, inbox[1..]);
    }
  }

  lemma ConnectCoupled(env: Env, net: Net, role: Role, id: Identity)
    requires NetInv(env, net) && Coupled(net) && Enabled(env, net, Connect(role, id))
    ensures Coupled(AfterConnect(net, role, id))
  {
    hide NetInv, GoodIdentity, SketchOf, S.HalfOf, S.Paired;
    var net' := AfterConnect(net, role, id);
    if Peer(role) in net.slots {
      NewcomerMeets(env, net, role, id);
      S.NewPair(S.HalfOf(SketchAt(net', ClientA), SketchAt(net', ClientB)),
                S.HalfOf(SketchAt(net', ClientB), SketchAt(net', ClientA)));
    }
  }

  lemma DisconnectCoupled(net: Net, role: Role)
    requires role in net.slots
    ensures Coupled(AfterDisconnect(net, role))
  {
    hide S.Pair;
    var net' := AfterDisconnect(net, role);
    forall r | r in net'.slots
      ensures Alone(net'.slots[r])
    {
      assert r == Peer(role) by {
        assert r.ClientA? || r.ClientB?;
      }
    }
  }

  lemma OnlyOne(net: Net, role: Role)
    requires role in net.slots && Peer(role) !in net.slots
    ensures Coupled(net) <==> Alone(net.slots[role])
  {
    hide S.Pair, Alone;
    forall r | r in net.slots
      ensures r == role
    {
      assert r.ClientA? || r.ClientB?;
    }
  }

  lemma RelayAlone(env: Env, net: Net, role: Role)
    requires Coupled(net) && Enabled(env, net, Relay(role)) && Peer(role) !in net.slots
    ensures Coupled(AfterRelay(env, net, role))
  {
    hide RelayAccepts, Coupled;
    OnlyOne(net, role);
    OnlyOne(AfterRelay(env, net, role), role);
  }

  // The last word a client without a peer has to handle is that its peer left.
  lemma DeliverAlone(env: Env, net: Net, role: Role, coins: Coins)
    requires Coupled(net) && Enabled(env, net, Deliver(role, coins)) && Peer(role) !in net.slots
    ensures Coupled(AfterDeliver(env, net, role, coins))
  {
    hide HandleMessage, LawfulCoins, ToObject, Recorded, Coupled, OwnHelloOnce;
    OnlyOne(net, role);
    OnlyOne(AfterDeliver(env, net, role, coins), role);
  }

  lemma StepCoupled(env: Env, net: Net, authors: Authors, step: Step)
    requires NetInv(env, net) && NetTraced(env, net, authors) && Coupled(net) && Enabled(env, net, step)
    ensures Coupled(Next(env, net, step))
  {
    hide NetInv, NetTraced, Coupled, RelayAccepts, HandleMessage, LawfulCoins, ToObject, Recorded, GoodIdentity;
    match step
    case Connect(role, id) => ConnectCoupled(env, net, role, id);
    case Disconnect(role) => DisconnectCoupled(net, role);
    case Relay(role) =>
      if Peer(role) in net.slots {
        RelayStep(env, net, authors, role);
      } else {
        RelayAlone(env, net, role);
      }
    case Deliver(role, coins) =>
      if Peer(role) in net.slots {
        DeliverStep(env, net, authors, role, coins);
      } else {
        DeliverAlone(env, net, role, coins);
      }
  }

  lemma DeliverStep(env: Env, net: Net, authors: Authors, role: Role, coins: Coins)
    requires NetInv(env, net) && NetTraced(env, net, authors) && Coupled(net)
    requires Enabled(env, net, Deliver(role, coins)) && Peer(role) in net.slots
    ensures var net' := AfterDeliver(env, net, role, coins);
            && ClientA in net'.slots && ClientB in net'.slots && Coupled(net')
            && (Works(role, coins) ==>
                  S.SameTangles(SketchAt(net, ClientA), SketchAt(net, ClientB), SketchAt(net', ClientA),
                                SketchAt(net', ClientB)))
  {
    hide NetInv, NetTraced, Coupled, HandleMessage, LawfulCoins, ToObject, Recorded, SketchOf, S.Take, S.SameTangles,
         Works;
    DeliverySketched(env, net, authors, role, coins);
    assert role == ClientA || role == ClientB;
    PairStep(net, AfterDeliver(env, net, role, coins), role, Works(role, coins));
  }

  lemma {:induction false} RunCoupled(env: Env, from: Net, authors: Authors, steps: seq<Step>,
                                      to: Net) returns (authors': Authors)
    requires NetInv(env, from) && NetTraced(env, from, authors) && Coupled(from) && Reaches(env, from, steps, to)
    ensures NetInv(env, to) && NetTraced(env, to, authors') && Coupled(to)
    decreases |steps|
  {
    hide NetInv, NetTraced, Coupled, Next, Enabled;
    authors' := authors;
    if steps != [] {
      HonestAgreement.StepKeepsInv(env, from, steps[0]);
      StepTraced(env, from, authors, steps[0]);
      StepCoupled(env, from, authors, steps[0]);
      authors' := RunCoupled(env, Next(env, from, steps[0]), AuthorsAfter(from, authors, steps[0]), steps[1..], to);
    }
  }

  // ---- The result -----------------------------------------------------------------------------------------------

  // The lines that were written, or are certain to be written, for the client in a slot once it has
  // handled its departures, seen with what the client waits for, hold a HELLO followed by a signed
  // message of an earlier session; or the client is FAILED with no departure left to handle.
  ghost predicate Entangled(net: Net, role: Role)
    requires role in net.slots && Peer(role) in net.slots
  {
    S.Tangled(S.HalfOf(SketchAt(net, role), SketchAt(net, Peer(role))))
  }

  predicate BothEstablished(net: Net)
    requires ClientA in net.slots && ClientB in net.slots
  {
    net.slots[ClientA].session.state == Established && net.slots[ClientB].session.state == Established
  }

  lemma QuietStepKeepsTangles(env: Env, net: Net, authors: Authors, step: Step)
    requires NetInv(env, net) && NetTraced(env, net, authors) && Coupled(net) && Enabled(env, net, step)
    requires ClientA in net.slots && ClientB in net.slots && Convergence.IsQuiet(step)
    ensures var net' := Next(env, net, step);
            && ClientA in net'.slots && ClientB in net'.slots
            && (Entangled(net', ClientA) <==> Entangled(net, ClientA)) &&
               (Entangled(net', ClientB) <==> Entangled(net, ClientB))
  {
    hide NetInv, NetTraced, Coupled, RelayAccepts, HandleMessage, LawfulCoins, ToObject, Recorded, SketchOf, S.HalfOf,
         S.Tangled;
    match step
    case Relay(role) => RelayStep(env, net, authors, role);
    case Deliver(role, coins) => DeliverStep(env, net, authors, role, coins);
  }

  lemma OccupantInv(env: Env, net: Net, role: Role)
    requires NetInv(env, net) && role in net.slots
    ensures Inv(net.slots[role].session)
  {
    hide Sound, HistoryOk, PairOk, SessionRecorded, SessionKeysOk, InboxOk, OutboxOk, GoodIdentity, Inv;
    PartsOfSlot(env, net, role);
  }

  lemma QuietStepLightens(env: Env, net: Net, step: Step)
    requires NetInv(env, net) && Enabled(env, net, step) && (step.Relay? || step.Deliver?)
    ensures Convergence.Measure(Next(env, net, step)) < Convergence.Measure(net)
  {
    hide NetInv, Inv, Convergence.Measure, Next, LawfulCoins, RelayAccepts;
    OccupantInv(env, net, step.role);
    Convergence.QuietStepDecreases(env, net, step);
  }

  lemma {:induction false} QuietRunKeepsTangles(env: Env, from: Net, authors: Authors, steps: seq<Step>, to: Net)
    requires NetInv(env, from) && NetTraced(env, from, authors) && Coupled(from) && Reaches(env, from, steps, to)
    requires ClientA in from.slots && ClientB in from.slots && Convergence.AllQuiet(steps)
    ensures NetInv(env, to) && Coupled(to) && ClientA in to.slots && ClientB in to.slots
    ensures (Entangled(to, ClientA) <==> Entangled(from, ClientA))
    ensures (Entangled(to, ClientB) <==> Entangled(from, ClientB))
    ensures |steps| + Convergence.Measure(to) <= Convergence.Measure(from)
    decreases |steps|
  {
    hide NetInv, NetTraced, Coupled, Next, Enabled, Entangled, Convergence.Measure;
    if steps != [] {
      assert Convergence.IsQuiet(steps[0]);
      assert forall s :: s in steps[1..] ==> s in steps;
      HonestAgreement.StepKeepsInv(env, from, steps[0]);
      StepTraced(env, from, authors, steps[0]);
      StepCoupled(env, from, authors, steps[0]);
      QuietStepKeepsTangles(env, from, authors, steps[0]);
      QuietStepLightens(env, from, steps[0]);
      QuietRunKeepsTangles(env, Next(env, from, steps[0]), AuthorsAfter(from, authors, steps[0]), steps[1..], to);
    }
  }

  // With nothing left to relay or deliver, both are ESTABLISHED exactly when nothing was entangled.
  lemma SettledExactly(net: Net)
    requires ClientA in net.slots && ClientB in net.slots && Coupled(net) && Convergence.Settled(net)
    ensures BothEstablished(net) <==> !Entangled(net, ClientA) && !Entangled(net, ClientB)
  {
    hide S.Paired, S.Tangled;
    var a, b := SketchAt(net, ClientA), SketchAt(net, ClientB);
    SettledHalf(net.history, net.slots[ClientA], net.slots[ClientB]);
    SettledHalf(net.history, net.slots[ClientB], net.slots[ClientA]);
    S.PairTold(S.HalfOf(a, b), S.HalfOf(b, a));
    S.QuietPair(S.HalfOf(a, b), S.HalfOf(b, a));
  }

  lemma SettledHalf(h: History, c: Client, d: Client)
    requires c.inbox == [] && c.outbox == [] && d.inbox == [] && d.outbox == []
    ensures var x := S.HalfOf(SketchOf(h, c, d.session.identity), SketchOf(h, d, c.session.identity));
            x.coming == [] && (x.told ==> x.sent) && (x.phase == S.Done <==> c.session.state == Established)
  {
  }

  // Two clients in the slots of any reachable state, whoever came and went before and whatever is
  // still on its way: every run of relaying and delivering is bounded, and when nothing is left both
  // are ESTABLISHED, on the same session ID and key, if and only if no client is entangled now.
  lemma ConvergesExactly(env: Env, past: seq<Step>, net: Net, steps: seq<Step>, net': Net)
    requires Reaches(env, INITIAL, past, net) && ClientA in net.slots && ClientB in net.slots
    requires Convergence.AllQuiet(steps) && Reaches(env, net, steps, net')
    ensures ClientA in net'.slots && ClientB in net'.slots && |steps| <= Convergence.Measure(net)
    ensures Convergence.Settled(net') ==>
              (BothEstablished(net') <==> !Entangled(net, ClientA) && !Entangled(net, ClientB))
    ensures BothEstablished(net') ==>
      && net'.slots[ClientA].session.sessionId.Some? && net'.slots[ClientA].session.sessionKey.Some?
      && net'.slots[ClientA].session.sessionId == net'.slots[ClientB].session.sessionId
      && net'.slots[ClientA].session.sessionKey == net'.slots[ClientB].session.sessionKey
  {
    InitialCoupled(env);
    hide NetInv, NetTraced, Coupled, Reaches, Entangled, Convergence.Measure;
    var authors := RunCoupled(env, INITIAL, Authors([], []), past, net);
    QuietRunKeepsTangles(env, net, authors, steps, net');
    if Convergence.Settled(net') {
      SettledExactly(net');
    }
    if BothEstablished(net') {
      InvAgreement(env, net');
    }
  }

  lemma InitialCoupled(env: Env)
    ensures NetInv(env, INITIAL) && NetTraced(env, INITIAL, Authors([], [])) && Coupled(INITIAL)
  {
  }
}
