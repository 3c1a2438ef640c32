// Two clients that stay connected always finish the handshake, whatever the interleaving.
module Convergence {
  import opened Wrappers
  import opened Text
  import opened Crypto
  import opened Messages
  import opened Validation
  import opened Handshake
  import opened Sessions
  import opened Evidence
  import opened HonestNetwork
  import HonestAgreement
  import Base64
  import Canonical

  // ---- Runs without departures -------------------------------------------------------------------

  // Relaying and delivering, with primitives that do not throw.
  predicate IsQuiet(step: Step) {
    match step
    case Connect(_, _) => false
    case Disconnect(_) => false
    case Relay(_) => true
    case Deliver(_, coins) => coins.key.Some? && coins.ackSignature.Some?
  }

  predicate AllQuiet(steps: seq<Step>) {
    forall s :: s in steps ==> IsQuiet(s)
  }

  // Both clients have just connected; at least one of them has been told so.
  predicate Start(env: Env, net: Net) {
    && ClientA in net.slots && ClientB in net.slots
    && (var a, b := net.slots[ClientA], net.slots[ClientB];
        && a.session == Fresh(ClientA, a.session.identity) && b.session == Fresh(ClientB, b.session.identity)
        && GoodIdentity(env, a.session.identity) && GoodIdentity(env, b.session.identity)
        && a.outbox == [] && b.outbox == []
        && a.inbox in {[], [PeerJoined]} && b.inbox in {[], [PeerJoined]}
        && (a.inbox != [] || b.inbox != []))
  }

  // Nothing is left to relay or deliver.
  predicate Settled(net: Net)
    requires ClientA in net.slots && ClientB in net.slots
  {
    net.slots[ClientA].outbox == [] && net.slots[ClientA].inbox == [] && net.slots[ClientB].outbox == [] &&
    net.slots[ClientB].inbox == []
  }

  lemma TwoConnectsStart(env: Env, net: Net, idA: Identity, idB: Identity)
    requires net.slots == map[] && Enabled(env, net, Connect(ClientA, idA))
    requires Enabled(env, AfterConnect(net, ClientA, idA), Connect(ClientB, idB))
    ensures Start(env, AfterConnect(AfterConnect(net, ClientA, idA), ClientB, idB))
  {
    hide GoodIdentity;
    var one := AfterConnect(net, ClientA, idA);
    assert one.slots[ClientA] == Client(Fresh(ClientA, idA), [], []);
    assert [] + [PeerJoined] == [PeerJoined];
    var two := AfterConnect(one, ClientB, idB);
    assert two.slots[ClientA].inbox == [PeerJoined] && two.slots[ClientB].inbox == [PeerJoined];
  }

  // ---- Termination -----------------------------------------------------------------------------------

  // The messages a session may still emit before its peer leaves.
  function Unsent(s: Session): nat {
    (if s.helloSent then 0 else 1)
    + (if s.role == ClientA then (if s.state == NoSession then 1 else 0) else (if s.state == Established then 0 else 1))
  }

  // A departure gives a client its two messages back.
  function InboxWeight(inbox: seq<Item>): nat {
    if inbox == [] then 0 else (if inbox[0] == PeerLeft then 7 else 1) + InboxWeight(inbox[1..])
  }

  function ClientWeight(c: Client): nat {
    2 * |c.outbox| + InboxWeight(c.inbox) + 3 * Unsent(c.session)
  }

  function Measure(net: Net): nat {
    (if ClientA in net.slots then ClientWeight(net.slots[ClientA]) else 0)
    + (if ClientB in net.slots then ClientWeight(net.slots[ClientB]) else 0)
  }

  lemma HandlingEmitsUnsent(env: Env, ledger: Ledger, s: Session, j: Json, coins: Coins)
    requires Inv(s)
    ensures var o := HandleMessage(env, ledger, s, j, coins);
            o.session.role == s.role && |o.result.outgoing| + Unsent(o.session) <= Unsent(s)
  {
    HandleMessageCases(env, ledger, s, j, coins);
    hide HandleMessage, ToObject, WellFormed;
    var o := HandleMessage(env, ledger, s, j, coins);
    if !(o.session == s && o.result.outgoing == []) {
      var m: Msg :| WellFormed(env, m) && o == OnMessage(env, ledger, s, m, coins);
      OnMessageEmitsUnsent(env, ledger, s, m, coins);
    }
  }

  lemma OnMessageEmitsUnsent(env: Env, ledger: Ledger, s: Session, m: Msg, coins: Coins)
    requires Inv(s)
    ensures var o := OnMessage(env, ledger, s, m, coins);
            o.session.role == s.role && |o.result.outgoing| + Unsent(o.session) <= Unsent(s)
  {
    hide CreateKeyExchange, VerifyKeyExchange, VerifyKeyExchangeAck, CreateKeyExchangeAck, ImportPublicKey, Name,
         OwnHello;
  }

  lemma {:induction false} InboxWeightAppend(inbox: seq<Item>, m: Msg)
    ensures InboxWeight(inbox + [Relayed(m)]) == InboxWeight(inbox) + 1
  {
    if inbox == [] {
      assert inbox + [Relayed(m)] == [Relayed(m)];
    } else {
      assert (inbox + [Relayed(m)])[1..] == inbox[1..] + [Relayed(m)];
      InboxWeightAppend(inbox[1..], m);
    }
  }

  lemma RelayDecreases(env: Env, net: Net, role: Role)
    requires Enabled(env, net, Relay(role))
    ensures Measure(AfterRelay(env, net, role)) < Measure(net)
  {
    hide RelayAccepts;
    if Peer(role) in net.slots {
      InboxWeightAppend(net.slots[Peer(role)].inbox, net.slots[role].outbox[0]);
    }
    assert role == ClientA || role == ClientB;
  }

  lemma LighterClient(net: Net, role: Role, c: Client)
    requires role in net.slots && ClientWeight(c) < ClientWeight(net.slots[role])
    ensures forall net': Net :: net'.slots == net.slots[role := c] ==> Measure(net') < Measure(net)
  {
    hide ClientWeight;
    assert role == ClientA || role == ClientB;
  }

  lemma DeliverDecreases(env: Env, net: Net, role: Role, coins: Coins)
    requires Enabled(env, net, Deliver(role, coins)) && Inv(net.slots[role].session)
    ensures Measure(AfterDeliver(env, net, role, coins)) < Measure(net)
  {
    hide HandleMessage, LawfulCoins, ToObject, Inv, Measure, Recorded;
    var c := net.slots[role];
    if c.inbox[0].Relayed? {
      HandlingEmitsUnsent(env, net.ledger, c.session, Obj(ToObject(c.inbox[0].m)), coins);
    }
    LighterClient(net, role, AfterDeliver(env, net, role, coins).slots[role]);
  }

  // Every relaying or delivering step makes the measure smaller, whether or not it succeeds and whatever
  // came and went before.
  lemma QuietStepDecreases(env: Env, net: Net, step: Step)
    requires Enabled(env, net, step) && (step.Relay? || step.Deliver?) && Inv(net.slots[step.role].session)
    ensures Measure(Next(env, net, step)) < Measure(net)
  {
    hide LawfulCoins, Inv, Measure, HandleMessage, RelayAccepts, ToObject;
    if step.Relay? {
      RelayDecreases(env, net, step.role);
    } else {
      DeliverDecreases(env, net, step.role, step.coins);
    }
  }

  // ---- The handshake in flight --------------------------------------------------------------------------

  // The messages among what a client has not handled.
  function Lines(inbox: seq<Item>): seq<Msg> {
    if inbox == [] then []
    else (match inbox[0] case Relayed(m) => [m] case _ => []) + Lines(inbox[1..])
  }

  lemma {:induction false} LinesAppend(inbox: seq<Item>, item: Item)
    ensures Lines(inbox + [item]) == Lines(inbox) + Lines([item])
  {
    if inbox != [] {
      assert (inbox + [item])[1..] == inbox[1..] + [item];
      LinesAppend(inbox[1..], item);
    } else {
      assert inbox + [item] == [item];
    }
  }

  // Everything on its way from one client to the other, oldest first.
  function InFlight(from: Client, to: Client): seq<Msg> {
    Lines(to.inbox) + from.outbox
  }

  // How many of its peer's messages a session has accepted.
  function HeardSoFar(s: Session): nat {
    match s.state
    case NoSession => 0
    case HelloExchanged => 1
    case KeySent => 1
    case Established => 2
    case _ => 3
  }

  predicate KnowsPeer(s: Session, peer: Identity) {
    s.state != NoSession ==> s.peerEncryption == Some(peer.encryption) && s.peerSigning == Some(peer.signing)
  }

  predicate Participant(env: Env, role: Role, c: Client) {
    && c.session.role == role && Inv(c.session) && GoodIdentity(env, c.session.identity)
    && PeerLeft !in c.inbox && HeardSoFar(c.session) <= 2
  }

  // What is in flight is the part of the sender's script that it has sent and the receiver has not
  // accepted. ke and ack are the signed messages of the handshake, once they exist.
  predicate OnTrack(env: Env, ledger: Ledger, a: Client, b: Client, ke: Msg, ack: Msg) {
    && Participant(env, ClientA, a) && Participant(env, ClientB, b)
    && KnowsPeer(a.session, b.session.identity) && KnowsPeer(b.session, a.session.identity)
    && HeardSoFar(b.session) <= Progress(a.session) && HeardSoFar(a.session) <= Progress(b.session)
    && InFlight(a, b) == [OwnHello(env, a.session), ke][HeardSoFar(b.session)..Progress(a.session)]
    && InFlight(b, a) == [OwnHello(env, b.session), ack][HeardSoFar(a.session)..Progress(b.session)]
    && (HeardSoFar(b.session) < 2 && Progress(a.session) == 2 ==>
        && a.session.sessionId.Some? && a.session.sessionKey.Some?
        && VerifyKeyExchange(env, ledger, ke, Name(ClientA), Name(ClientB), a.session.identity.signing,
                             b.session.identity.encryption)
           == Success(Accepted(a.session.sessionId.value, a.session.sessionKey.value)))
    && (HeardSoFar(b.session) == 2 ==>
          b.session.sessionId == a.session.sessionId && b.session.sessionKey == a.session.sessionKey)
    && (HeardSoFar(a.session) < 2 && Progress(b.session) == 2 ==>
        && b.session.sessionId.Some?
        && VerifyKeyExchangeAck(env, ledger, ack, Name(ClientB), Name(ClientA), b.session.sessionId.value,
                                b.session.identity.signing) == None)
  }

  // Some client has been told of the other, or will be, or has said HELLO.
  predicate Awake(a: Client, b: Client) {
    a.session.helloSent || b.session.helloSent || PeerJoined in a.inbox || PeerJoined in b.inbox
  }

  ghost predicate Converging(env: Env, net: Net) {
    && ClientA in net.slots && ClientB in net.slots
    && Awake(net.slots[ClientA], net.slots[ClientB])
    && exists ke, ack :: OnTrack(env, net.ledger, net.slots[ClientA], net.slots[ClientB], ke, ack)
  }

  lemma StartConverges(env: Env, net: Net)
    requires Start(env, net)
    ensures Converging(env, net)
  {
    hide GoodIdentity, OwnHello;
    var a, b := net.slots[ClientA], net.slots[ClientB];
    var m := OwnHello(env, a.session);
    assert forall i: seq<Item> :: i in {[], [PeerJoined]} ==> Lines(i) == [];
    assert OnTrack(env, net.ledger, a, b, m, m);
  }

  // ---- Relaying ----------------------------------------------------------------------------------------------

  lemma RelayKeepsFlight(from: Client, to: Client)
    requires from.outbox != []
    ensures var m := from.outbox[0];
            InFlight(from.(outbox := from.outbox[1..]), to.(inbox := to.inbox + [Relayed(m)])) == InFlight(from, to)
    ensures InFlight(to.(inbox := to.inbox + [Relayed(from.outbox[0])]),
                     from.(outbox := from.outbox[1..])) == InFlight(to, from)
  {
    var m := from.outbox[0];
    LinesAppend(to.inbox, Relayed(m));
    assert Lines([Relayed(m)]) == [m];
    assert from.outbox == [m] + from.outbox[1..];
  }

  lemma OwnHelloIsRelayed(env: Env, s: Session)
    requires GoodIdentity(env, s.identity)
    ensures RelayAccepts(env, s.role, OwnHello(env, s))
  {
    HonestAgreement.OwnHelloIsWellFormed(env, s);
    hide WellFormed, GoodIdentity, Name;
  }

  lemma KeyIsRelayed(env: Env, ledger: Ledger, m: Msg, signing: PublicKey, own: PublicKey)
    requires VerifyKeyExchange(env, ledger, m, Name(ClientA), Name(ClientB), signing, own).Success?
    ensures RelayAccepts(env, ClientA, m)
  {
    hide WellFormed, Canonical.CanonicalizeHandshake, Base64.Decode, Name;
  }

  lemma AckIsRelayed(env: Env, ledger: Ledger, m: Msg, id: string, signing: PublicKey)
    requires VerifyKeyExchangeAck(env, ledger, m, Name(ClientB), Name(ClientA), id, signing) == None
    ensures RelayAccepts(env, ClientB, m)
  {
    hide WellFormed, Canonical.CanonicalizeHandshake, Base64.Decode, Name;
  }

  // Every line of the handshake passes the server's checks.
  lemma FlightIsRelayed(env: Env, ledger: Ledger, a: Client, b: Client, ke: Msg, ack: Msg)
    requires OnTrack(env, ledger, a, b, ke, ack)
    ensures forall m :: m in InFlight(a, b) ==> RelayAccepts(env, ClientA, m)
    ensures forall m :: m in InFlight(b, a) ==> RelayAccepts(env, ClientB, m)
  {
    hide RelayAccepts, GoodIdentity, OwnHello, VerifyKeyExchange, VerifyKeyExchangeAck, Name, Inv, InFlight;
    OwnHelloIsRelayed(env, a.session);
    OwnHelloIsRelayed(env, b.session);
    if HeardSoFar(b.session) < 2 && Progress(a.session) == 2 {
      KeyIsRelayed(env, ledger, ke, a.session.identity.signing, b.session.identity.encryption);
    }
    if HeardSoFar(a.session) < 2 && Progress(b.session) == 2 {
      AckIsRelayed(env, ledger, ack, b.session.sessionId.value, b.session.identity.signing);
    }
  }

  lemma RelayConverges(env: Env, net: Net, role: Role)
    requires Converging(env, net) && Enabled(env, net, Relay(role))
    ensures Converging(env, AfterRelay(env, net, role))
  {
    hide RelayAccepts, GoodIdentity, OwnHello, VerifyKeyExchange, VerifyKeyExchangeAck, Name, Inv, InFlight, Progress;
    var a, b := net.slots[ClientA], net.slots[ClientB];
    var ke, ack :| OnTrack(env, net.ledger, a, b, ke, ack);
    FlightIsRelayed(env, net.ledger, a, b, ke, ack);
    var from, to := if role == ClientA then a else b, if role == ClientA then b else a;
    OutboxInFlight(from, to);
    RelayKeepsFlight(from, to);
    var net' := AfterRelay(env, net, role);
    var a', b' := net'.slots[ClientA], net'.slots[ClientB];
    assert OnTrack(env, net'.ledger, a', b', ke, ack);
  }

  lemma OutboxInFlight(from: Client, to: Client)
    requires from.outbox != []
    ensures from.outbox[0] in InFlight(from, to)
  {
    assert InFlight(from, to)[|Lines(to.inbox)|] == from.outbox[0];
  }

  // ---- Delivering -----------------------------------------------------------------------------------------------

  // The client after it was told of its peer.
  function AfterJoin(env: Env, c: Client): Client
    requires c.inbox != []
  {
    var (s, r) := OnPeerJoined(env, c.session);
    Client(s, c.outbox + r.outgoing, c.inbox[1..])
  }

  lemma JoinKeepsMember(env: Env, role: Role, c: Client)
    requires Participant(env, role, c) && c.inbox != [] && c.inbox[0] == PeerJoined
    ensures var c' := AfterJoin(env, c);
            && Participant(env, role, c') && HeardSoFar(c'.session) == HeardSoFar(c.session)
            && c'.session == c.session.(helloSent := true)
            && Progress(c'.session) == (if c.session.helloSent then Progress(c.session) else 1)
            && (!c.session.helloSent ==> Progress(c.session) == 0)
            && c'.outbox == c.outbox + OwnHelloOnce(env, c.session)
  {
    hide GoodIdentity, OwnHello;
  }

  lemma InitiatorToldStaysOnTrack(env: Env, ledger: Ledger, a: Client, b: Client, ke: Msg, ack: Msg)
    requires OnTrack(env, ledger, a, b, ke, ack) && a.inbox != [] && a.inbox[0] == PeerJoined
    ensures OnTrack(env, ledger, AfterJoin(env, a), b, ke, ack)
  {
    hide GoodIdentity, VerifyKeyExchange, VerifyKeyExchangeAck, Name, InFlight, OwnHello, Participant, Progress,
         HeardSoFar, Inv;
    JoinKeepsMember(env, ClientA, a);
    JoinExtendsFlight(env, a, b);
    SameHello(env, a.session, AfterJoin(env, a).session);
  }

  lemma ResponderToldStaysOnTrack(env: Env, ledger: Ledger, a: Client, b: Client, ke: Msg, ack: Msg)
    requires OnTrack(env, ledger, a, b, ke, ack) && b.inbox != [] && b.inbox[0] == PeerJoined
    ensures OnTrack(env, ledger, a, AfterJoin(env, b), ke, ack)
  {
    hide GoodIdentity, VerifyKeyExchange, VerifyKeyExchangeAck, Name, InFlight, OwnHello, Participant, Progress,
         HeardSoFar, Inv;
    JoinKeepsMember(env, ClientB, b);
    JoinExtendsFlight(env, b, a);
    SameHello(env, b.session, AfterJoin(env, b).session);
  }

  lemma JoinConverges(env: Env, net: Net, role: Role, coins: Coins)
    requires Converging(env, net) && Enabled(env, net, Deliver(role, coins)) && net.slots[role].inbox[0] == PeerJoined
    ensures Converging(env, AfterDeliver(env, net, role, coins))
  {
    hide OnTrack, OwnHello, LawfulCoins;
    var a, b := net.slots[ClientA], net.slots[ClientB];
    var ke, ack :| OnTrack(env, net.ledger, a, b, ke, ack);
    var net' := AfterDeliver(env, net, role, coins);
    if role == ClientA {
      InitiatorToldStaysOnTrack(env, net.ledger, a, b, ke, ack);
    } else {
      ResponderToldStaysOnTrack(env, net.ledger, a, b, ke, ack);
    }
    assert OnTrack(env, net'.ledger, net'.slots[ClientA], net'.slots[ClientB], ke, ack);
  }

  // Being told of the peer sends the HELLO if it is still due, and nothing else.
  lemma JoinExtendsFlight(env: Env, c: Client, d: Client)
    requires c.inbox != [] && c.inbox[0] == PeerJoined
    ensures var (s, r) := OnPeerJoined(env, c.session);
            var c' := Client(s, c.outbox + r.outgoing, c.inbox[1..]);
            InFlight(c', d) == InFlight(c, d) + OwnHelloOnce(env, c.session) && InFlight(d, c') == InFlight(d, c)
  {
    var (s, r) := OnPeerJoined(env, c.session);
    assert Lines(c.inbox) == Lines(c.inbox[1..]);
    assert Lines(d.inbox) + (c.outbox + r.outgoing) == Lines(d.inbox) + c.outbox + r.outgoing;
  }

  // The first line a client has not handled is the oldest in flight to it.
  lemma HandlingShiftsFlight(c: Client, d: Client, s: Session, sent: seq<Msg>)
    requires c.inbox != [] && c.inbox[0].Relayed?
    ensures var c' := Client(s, c.outbox + sent, c.inbox[1..]);
            && InFlight(d, c) == [c.inbox[0].m] + InFlight(d, c')
            && InFlight(c', d) == InFlight(c, d) + sent
  {
    assert Lines(d.inbox) + (c.outbox + sent) == Lines(d.inbox) + c.outbox + sent;
  }

  lemma ScriptHead(x: Msg, rest: seq<Msg>, h: Msg, k: Msg, i: nat, j: nat)
    requires i <= j <= 2 && [x] + rest == [h, k][i..j]
    ensures i < j && x == (if i == 0 then h else k) && rest == [h, k][i + 1..j]
  {
    assert ([x] + rest)[0] == x && ([x] + rest)[1..] == rest;
  }

  // Sending what is left of the script.
  lemma ScriptTail(h: Msg, k: Msg, k': Msg, i: nat, p: nat, once: seq<Msg>)
    requires i <= p <= 1 && once == (if p == 0 then [h] else [])
    ensures [h, k][i..p] + once == [h, k'][i..1]
    ensures [h, k][i..p] + (once + [k']) == [h, k'][i..2]
  {
  }

  lemma SameHello(env: Env, s: Session, s': Session)
    requires s'.role == s.role && s'.identity == s.identity
    ensures OwnHello(env, s') == OwnHello(env, s)
  {
  }

  // Client A takes Client B's HELLO: its key exchange succeeds and will be accepted.
  lemma InitiatorTakesHello(env: Env, h: History, ledger: Ledger, a: Session, b: Session, coins: Coins)
    requires Inv(a) && a.role == ClientA && a.state == NoSession && b.role == ClientB
    requires GoodIdentity(env, a.identity) && GoodIdentity(env, b.identity)
    requires coins.key.Some? && LawfulCoins(env, h, ledger, a, OwnHello(env, b), coins)
    ensures WellFormed(env, OwnHello(env, b))
    ensures var o := OnMessage(env, ledger, a, OwnHello(env, b), coins);
            && o.session.role == ClientA && o.session.identity == a.identity && o.session.state == KeySent
            && o.session.helloSent
            && o.session.sessionId.Some? && o.session.sessionKey.Some?
            && o.session.peerEncryption == Some(b.identity.encryption) &&
               o.session.peerSigning == Some(b.identity.signing)
            && |o.result.outgoing| >= 1
            && o.result.outgoing == OwnHelloOnce(env, a) + [o.result.outgoing[|o.result.outgoing| - 1]]
            && VerifyKeyExchange(env, o.ledger, o.result.outgoing[|o.result.outgoing| - 1], Name(ClientA),
                                 Name(ClientB),
                                 a.identity.signing, b.identity.encryption)
               == Success(Accepted(o.session.sessionId.value, o.session.sessionKey.value))
  {
    HonestAgreement.OwnHelloIsWellFormed(env, b);
    HelloImports(env, b);
    NamesAreParties();
    GoodModuli(env, a.identity);
    GoodModuli(env, b.identity);
    HelloCoins(env, h, ledger, a, b, coins);
    hide ParsePem, ImportPublicKey, WellFormed, ValidParty, Name, VerifyKeyExchange, CreateKeyExchange, GoodIdentity,
         LawfulCoins, LawfulKeyCoins;
    KeyExchangeComplete(env, ledger, Name(ClientA), Name(ClientB), a.identity.signing, b.identity.encryption,
                        coins.key.value);
  }

  lemma GoodModuli(env: Env, id: Identity)
    requires GoodIdentity(env, id)
    ensures MIN_MODULUS_LENGTH <= env.modulusBits(id.encryption) <= 8192
    ensures MIN_MODULUS_LENGTH <= env.modulusBits(id.signing) <= 8192
    ensures ModulusBytes(env, id.encryption) <= 1024
  {
  }

  lemma HelloCoins(env: Env, h: History, ledger: Ledger, a: Session, b: Session, coins: Coins)
    requires GoodIdentity(env, b.identity) && coins.key.Some? && LawfulCoins(env, h, ledger, a, OwnHello(env, b), coins)
    ensures LawfulKeyCoins(env, ledger, b.identity.encryption, a.identity.signing, coins.key.value)
  {
    HelloImports(env, b);
    hide ImportPublicKey, GoodIdentity, LawfulKeyCoins;
  }

  lemma AcceptedShape(env: Env, ledger: Ledger, ke: Msg, signing: PublicKey, own: PublicKey, id: string, key: Bytes)
    requires VerifyKeyExchange(env, ledger, ke, Name(ClientA), Name(ClientB), signing,
                               own) == Success(Accepted(id, key))
    ensures WellFormed(env, ke) && ke.KeyExchange? && ke.sessionId == id && IsSessionId(id)
  {
    KeyExchangeAcceptedIff(env, ledger, ke, Name(ClientA), Name(ClientB), signing, own, id, key);
    hide VerifyKeyExchange, WellFormed, Name, DataOf, Base64.Decode, Base64.IsShaped, IsSessionId;
    KeyHasSessionId(env, ke);
  }

  lemma HelloImports(env: Env, s: Session)
    requires GoodIdentity(env, s.identity)
    ensures ImportPublicKey(env, OwnHello(env, s).encryptionPublicKey) == Some(s.identity.encryption)
    ensures ImportPublicKey(env, OwnHello(env, s).signingPublicKey) == Some(s.identity.signing)
  {
    hide ImportPublicKey, NoPrivateMark;
  }

  // Client B takes Client A's HELLO.
  lemma ResponderTakesHello(env: Env, ledger: Ledger, a: Session, b: Session, coins: Coins)
    requires Inv(b) && b.role == ClientB && b.state == NoSession && a.role == ClientA && GoodIdentity(env, a.identity)
    ensures WellFormed(env, OwnHello(env, a))
    ensures OnMessage(env, ledger, b, OwnHello(env, a), coins) ==
      Outcome(b.(peerEncryption := Some(a.identity.encryption), peerSigning := Some(a.identity.signing),
                 state := HelloExchanged, helloSent := true),
              StepResult(OwnHelloOnce(env, b), PeerKeysReceived, None), ledger)
  {
    HonestAgreement.OwnHelloIsWellFormed(env, a);
    HelloImports(env, a);
    hide ParsePem, ImportPublicKey, WellFormed, Name, GoodIdentity;
  }

  // Client B takes the KEY_EXCHANGE: it is established, and its ACK will be accepted.
  lemma ResponderTakesKey(env: Env, ledger: Ledger, b: Session, ke: Msg, peer: Identity, id: string, key: Bytes,
                          coins: Coins)
    requires b.role == ClientB && b.state == HelloExchanged && b.peerSigning == Some(peer.signing)
    requires GoodIdentity(env, b.identity)
    requires VerifyKeyExchange(env, ledger, ke, Name(ClientA), Name(ClientB), peer.signing, b.identity.encryption)
             == Success(Accepted(id, key))
    requires coins.ackSignature.Some? && LawfulSignature(env, b.identity.signing, coins.ackSignature.value)
    ensures WellFormed(env, ke) && ke.KeyExchange?
    ensures var o := OnMessage(env, ledger, b, ke, coins);
            && o.session == b.(sessionId := Some(id), sessionKey := Some(key), state := Established)
            && |o.result.outgoing| == 1
            && VerifyKeyExchangeAck(env, o.ledger, o.result.outgoing[0], Name(ClientB), Name(ClientA), id,
                                    b.identity.signing) == None
  {
    hide GoodIdentity, LawfulSignature, WellFormed, Name, VerifyKeyExchange, VerifyKeyExchangeAck,
         CreateKeyExchangeAck, IsSessionId;
    AcceptedShape(env, ledger, ke, peer.signing, b.identity.encryption, id, key);
    AckWillBeAccepted(env, ledger, b.identity, id, coins.ackSignature.value);
  }

  lemma AckWillBeAccepted(env: Env, ledger: Ledger, identity: Identity, id: string, signature: Bytes)
    requires GoodIdentity(env, identity) && IsSessionId(id) && LawfulSignature(env, identity.signing, signature)
    ensures var r := CreateKeyExchangeAck(ledger, Name(ClientB), Name(ClientA), id, identity.signing, Some(signature));
            && r.Success?
            && VerifyKeyExchangeAck(env, r.value.1, r.value.0, Name(ClientB), Name(ClientA), id,
                                    identity.signing) == None
  {
    NamesAreParties();
    GoodModuli(env, identity);
    hide GoodIdentity, LawfulSignature, WellFormed, ValidParty, Name, VerifyKeyExchangeAck, CreateKeyExchangeAck,
         IsSessionId;
    AckComplete(env, ledger, Name(ClientB), Name(ClientA), id, identity.signing, signature);
  }

  // Client A takes the ACK.
  lemma InitiatorTakesAck(env: Env, ledger: Ledger, a: Session, ack: Msg, peer: Identity, id: string, coins: Coins)
    requires a.role == ClientA && a.state == KeySent && a.peerSigning == Some(peer.signing) && a.sessionId == Some(id)
    requires VerifyKeyExchangeAck(env, ledger, ack, Name(ClientB), Name(ClientA), id, peer.signing) == None
    ensures WellFormed(env, ack) && ack.KeyExchangeAck?
    ensures OnMessage(env, ledger, a, ack, coins) == Outcome(a.(state := Established),
                                                             StepResult([], SessionEstablished, None), ledger)
  {
    AckAcceptedIff(env, ledger, ack, Name(ClientB), Name(ClientA), id, peer.signing);
    hide WellFormed, Name, VerifyKeyExchangeAck, DataOf, Base64.Decode;
  }

  // Everything a delivery to a client of a converging pair does.
  predicate Delivers(env: Env, ledger: Ledger, c: Client, coins: Coins, o: Outcome, c': Client)
    requires c.inbox != [] && c.inbox[0].Relayed?
  {
    && WellFormed(env, c.inbox[0].m)
    && o == OnMessage(env, ledger, c.session, c.inbox[0].m, coins)
    && c' == Client(o.session, c.outbox + o.result.outgoing, c.inbox[1..])
  }

  lemma HelloToInitiator(env: Env, h: History, ledger: Ledger, a: Client, b: Client, ke: Msg, ack: Msg, coins: Coins)
    returns (a': Client, ke': Msg)
    requires OnTrack(env, ledger, a, b, ke, ack) && a.inbox != [] && a.inbox[0].Relayed? && HeardSoFar(a.session) == 0
    requires coins.key.Some? && LawfulCoins(env, h, ledger, a.session, a.inbox[0].m, coins)
    ensures var o := OnMessage(env, ledger, a.session, a.inbox[0].m, coins);
            && Delivers(env, ledger, a, coins, o, a') && OnTrack(env, o.ledger, a', b, ke', ack) && a'.session.helloSent
  {
    hide GoodIdentity, OwnHello, VerifyKeyExchange, VerifyKeyExchangeAck, Name, InFlight, OnMessage, WellFormed,
         LawfulCoins;
    var m := a.inbox[0].m;
    var o := OnMessage(env, ledger, a.session, m, coins);
    a' := Client(o.session, a.outbox + o.result.outgoing, a.inbox[1..]);
    HandlingShiftsFlight(a, b, o.session, o.result.outgoing);
    ScriptHead(m, InFlight(b, a'), OwnHello(env, b.session), ack, 0, Progress(b.session));
    InitiatorTakesHello(env, h, ledger, a.session, b.session, coins);
    ke' := o.result.outgoing[|o.result.outgoing| - 1];
    OnMessageInv(env, ledger, a.session, m, coins);
    SameHello(env, a.session, o.session);
    ScriptTail(OwnHello(env, a.session), ke, ke', HeardSoFar(b.session), Progress(a.session),
               OwnHelloOnce(env, a.session));
  }

  lemma InitiatorOnAck(env: Env, ledger: Ledger, a: Client, b: Client, ke: Msg, ack: Msg, coins: Coins)
    returns (a': Client)
    requires OnTrack(env, ledger, a, b, ke, ack) && a.inbox != [] && a.inbox[0].Relayed? && HeardSoFar(a.session) != 0
    ensures var o := OnMessage(env, ledger, a.session, a.inbox[0].m, coins);
            && Delivers(env, ledger, a, coins, o, a') && OnTrack(env, o.ledger, a', b, ke, ack) && a'.session.helloSent
  {
    hide GoodIdentity, OwnHello, VerifyKeyExchange, VerifyKeyExchangeAck, Name, InFlight, OnMessage, WellFormed;
    var m := a.inbox[0].m;
    var o := OnMessage(env, ledger, a.session, m, coins);
    a' := Client(o.session, a.outbox + o.result.outgoing, a.inbox[1..]);
    HandlingShiftsFlight(a, b, o.session, o.result.outgoing);
    ScriptHead(m, InFlight(b, a'), OwnHello(env, b.session), ack, HeardSoFar(a.session), Progress(b.session));
    InitiatorTakesAck(env, ledger, a.session, ack, b.session.identity, a.session.sessionId.value, coins);
    OnMessageInv(env, ledger, a.session, m, coins);
    SameHello(env, a.session, o.session);
    assert InFlight(a, b) + [] == InFlight(a, b);
  }

  lemma HelloToResponder(env: Env, ledger: Ledger, a: Client, b: Client, ke: Msg, ack: Msg, coins: Coins)
    returns (b': Client)
    requires OnTrack(env, ledger, a, b, ke, ack) && b.inbox != [] && b.inbox[0].Relayed? && HeardSoFar(b.session) == 0
    ensures var o := OnMessage(env, ledger, b.session, b.inbox[0].m, coins);
            && Delivers(env, ledger, b, coins, o, b') && OnTrack(env, o.ledger, a, b', ke, ack) && b'.session.helloSent
  {
    hide GoodIdentity, OwnHello, VerifyKeyExchange, VerifyKeyExchangeAck, Name, InFlight, OnMessage, WellFormed;
    var m := b.inbox[0].m;
    var o := OnMessage(env, ledger, b.session, m, coins);
    b' := Client(o.session, b.outbox + o.result.outgoing, b.inbox[1..]);
    HandlingShiftsFlight(b, a, o.session, o.result.outgoing);
    ScriptHead(m, InFlight(a, b'), OwnHello(env, a.session), ke, 0, Progress(a.session));
    ResponderTakesHello(env, ledger, a.session, b.session, coins);
    OnMessageInv(env, ledger, b.session, m, coins);
    SameHello(env, b.session, o.session);
    ScriptTail(OwnHello(env, b.session), ack, ack, HeardSoFar(a.session), Progress(b.session),
               OwnHelloOnce(env, b.session));
  }

  lemma ResponderOnKey(env: Env, ledger: Ledger, a: Client, b: Client, ke: Msg, ack: Msg, coins: Coins)
    returns (b': Client, ack': Msg)
    requires OnTrack(env, ledger, a, b, ke, ack) && b.inbox != [] && b.inbox[0].Relayed? && HeardSoFar(b.session) != 0
    requires coins.ackSignature.Some? && LawfulSignature(env, b.session.identity.signing, coins.ackSignature.value)
    ensures var o := OnMessage(env, ledger, b.session, b.inbox[0].m, coins);
            && Delivers(env, ledger, b, coins, o, b') && OnTrack(env, o.ledger, a, b', ke, ack') && b'.session.helloSent
  {
    hide GoodIdentity, OwnHello, VerifyKeyExchange, VerifyKeyExchangeAck, Name, InFlight, OnMessage, WellFormed,
         LawfulSignature;
    var m := b.inbox[0].m;
    var o := OnMessage(env, ledger, b.session, m, coins);
    b' := Client(o.session, b.outbox + o.result.outgoing, b.inbox[1..]);
    HandlingShiftsFlight(b, a, o.session, o.result.outgoing);
    ScriptHead(m, InFlight(a, b'), OwnHello(env, a.session), ke, HeardSoFar(b.session), Progress(a.session));
    ResponderTakesKey(env, ledger, b.session, ke, a.session.identity, a.session.sessionId.value,
                      a.session.sessionKey.value, coins);
    ack' := o.result.outgoing[0];
    OnMessageInv(env, ledger, b.session, m, coins);
    SameHello(env, b.session, o.session);
    ScriptTail(OwnHello(env, b.session), ack, ack', HeardSoFar(a.session), Progress(b.session), []);
    assert o.result.outgoing == [] + [ack'];
  }

  lemma MessageConverges(env: Env, net: Net, role: Role, coins: Coins)
    requires Converging(env, net) && Enabled(env, net, Deliver(role, coins)) && coins.key.Some?
    requires coins.ackSignature.Some?
    requires net.slots[role].inbox[0].Relayed?
    ensures Converging(env, AfterDeliver(env, net, role, coins))
  {
    hide OnTrack, OnMessage, HandleMessage, WellFormed, LawfulCoins, ToObject, Recorded;
    var a, b := net.slots[ClientA], net.slots[ClientB];
    var ke, ack :| OnTrack(env, net.ledger, a, b, ke, ack);
    var net' := AfterDeliver(env, net, role, coins);
    if role == ClientA {
      var a';
      if HeardSoFar(a.session) == 0 {
        var ke';
        a', ke' := HelloToInitiator(env, net.history, net.ledger, a, b, ke, ack, coins);
        HandleWellFormed(env, net.ledger, a.session, a.inbox[0].m, coins);
        assert OnTrack(env, net'.ledger, net'.slots[ClientA], net'.slots[ClientB], ke', ack);
      } else {
        a' := InitiatorOnAck(env, net.ledger, a, b, ke, ack, coins);
        HandleWellFormed(env, net.ledger, a.session, a.inbox[0].m, coins);
        assert OnTrack(env, net'.ledger, net'.slots[ClientA], net'.slots[ClientB], ke, ack);
      }
    } else {
      var b';
      if HeardSoFar(b.session) == 0 {
        b' := HelloToResponder(env, net.ledger, a, b, ke, ack, coins);
        HandleWellFormed(env, net.ledger, b.session, b.inbox[0].m, coins);
        assert OnTrack(env, net'.ledger, net'.slots[ClientA], net'.slots[ClientB], ke, ack);
      } else {
        var ack';
        AckSignatureIsLawful(env, net, coins);
        b', ack' := ResponderOnKey(env, net.ledger, a, b, ke, ack, coins);
        HandleWellFormed(env, net.ledger, b.session, b.inbox[0].m, coins);
        assert OnTrack(env, net'.ledger, net'.slots[ClientA], net'.slots[ClientB], ke, ack');
      }
    }
  }

  lemma AckSignatureIsLawful(env: Env, net: Net, coins: Coins)
    requires Enabled(env, net, Deliver(ClientB, coins)) && net.slots[ClientB].inbox[0].Relayed?
    requires coins.ackSignature.Some?
    ensures LawfulSignature(env, net.slots[ClientB].session.identity.signing, coins.ackSignature.value)
  {
  }

  // ---- The result --------------------------------------------------------------------------------------------------

  lemma QuietStepConverges(env: Env, net: Net, step: Step)
    requires Converging(env, net) && Enabled(env, net, step) && IsQuiet(step)
    ensures Converging(env, Next(env, net, step)) && Measure(Next(env, net, step)) < Measure(net)
  {
    hide OnTrack, Measure, LawfulCoins;
    ConvergingMembers(env, net);
    QuietStepDecreases(env, net, step);
    if step.Relay? {
      RelayConverges(env, net, step.role);
    } else if net.slots[step.role].inbox[0] == PeerJoined {
      JoinConverges(env, net, step.role, step.coins);
    } else {
      MessageConverges(env, net, step.role, step.coins);
    }
  }

  lemma ConvergingMembers(env: Env, net: Net)
    requires Converging(env, net)
    ensures forall r: Role ::
      (r in net.slots && PeerLeft !in net.slots[r].inbox
       && Inv(net.slots[r].session) && net.slots[r].session.role == r && net.slots[r].session.state != Failed)
  {
    hide GoodIdentity, OwnHello, VerifyKeyExchange, VerifyKeyExchangeAck, Name, InFlight, Inv, Progress;
    var ke, ack :| OnTrack(env, net.ledger, net.slots[ClientA], net.slots[ClientB], ke, ack);
    forall r: Role
      ensures r in net.slots && PeerLeft !in net.slots[r].inbox
      ensures Inv(net.slots[r].session) && net.slots[r].session.role == r && net.slots[r].session.state != Failed
    {
      if r == ClientA {
        assert Participant(env, r, net.slots[r]);
      } else {
        assert Participant(env, r, net.slots[r]);
      }
    }
  }

  // With nothing left to do, both have accepted everything.
  lemma SettledMeansEstablished(env: Env, net: Net)
    requires Converging(env, net) && Settled(net)
    ensures var a, b := net.slots[ClientA].session, net.slots[ClientB].session;
            && a.state == Established && b.state == Established
            && a.sessionId.Some? && a.sessionId == b.sessionId
            && a.sessionKey.Some? && a.sessionKey == b.sessionKey
  {
    hide GoodIdentity, OwnHello, VerifyKeyExchange, VerifyKeyExchangeAck, Name;
    var ke, ack :| OnTrack(env, net.ledger, net.slots[ClientA], net.slots[ClientB], ke, ack);
    assert Lines([]) == [];
  }

  lemma {:induction false} RunConverges(env: Env, from: Net, steps: seq<Step>, to: Net)
    requires Converging(env, from) && AllQuiet(steps) && Reaches(env, from, steps, to)
    ensures Converging(env, to) && |steps| + Measure(to) <= Measure(from)
    decreases |steps|
  {
    hide Converging, Measure, Enabled, Next;
    if steps != [] {
      assert IsQuiet(steps[0]);
      QuietStepConverges(env, from, steps[0]);
      assert forall s :: s in steps[1..] ==> s in steps;
      RunConverges(env, Next(env, from, steps[0]), steps[1..], to);
    }
  }

  // From two clients that have just met, for every interleaving of relaying and delivering: no run
  // is longer than the initial measure, nobody is ever FAILED, and once nothing is left to relay or
  // deliver both are ESTABLISHED on the same session ID and key. It does not matter in which order
  // the presence notices arrive, or whether only one side is told.
  lemma HandshakeConverges(env: Env, start: Net, steps: seq<Step>, net: Net)
    requires Start(env, start) && AllQuiet(steps) && Reaches(env, start, steps, net)
    ensures |steps| <= Measure(start) <= 14
    ensures ClientA in net.slots && ClientB in net.slots
    ensures net.slots[ClientA].session.state != Failed && net.slots[ClientB].session.state != Failed
    ensures Settled(net) ==>
      var a, b := net.slots[ClientA].session, net.slots[ClientB].session;
      && a.state == Established && b.state == Established
      && a.sessionId.Some? && a.sessionId == b.sessionId
      && a.sessionKey.Some? && a.sessionKey == b.sessionKey
  {
    StartConverges(env, start);
    StartMeasure(env, start);
    hide Measure, Start, Enabled, Next;
    RunConverges(env, start, steps, net);
    ConvergingMembers(env, net);
    hide Converging;
    if Settled(net) {
      SettledMeansEstablished(env, net);
    }
  }

  lemma StartMeasure(env: Env, net: Net)
    requires Start(env, net)
    ensures Measure(net) <= 14
  {
    hide GoodIdentity;
  }

  // While something is left, a step can be taken, if the primitives can serve the next message.
  lemma NotStuck(env: Env, net: Net, coins: map<Role, Coins>)
    requires ClientA in net.slots && ClientB in net.slots && !Settled(net)
    requires forall r: Role :: r in coins && coins[r].key.Some? && coins[r].ackSignature.Some?
    requires forall r :: r in net.slots && net.slots[r].inbox != [] && net.slots[r].inbox[0].Relayed? ==>
      LawfulCoins(env, net.history, net.ledger, net.slots[r].session, net.slots[r].inbox[0].m, coins[r])
    ensures exists step :: Enabled(env, net, step) && IsQuiet(step)
  {
    hide LawfulCoins;
    assert coins[ClientA].key.Some? && coins[ClientB].key.Some?;
    var r := if net.slots[ClientA].outbox == [] && net.slots[ClientA].inbox == [] then ClientB else ClientA;
    var step := if net.slots[r].outbox != [] then Relay(r) else Deliver(r, coins[r]);
    assert Enabled(env, net, step) && IsQuiet(step);
  }
}
