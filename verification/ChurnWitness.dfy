// Runs of the honest system in which a client that just took a slot becomes FAILED, because lines an
// earlier occupant was meant to get reach it.
module ChurnWitness {
  import opened Wrappers
  import opened Text
  import opened Crypto
  import opened Messages
  import opened Validation
  import opened Handshake
  import opened Sessions
  import opened Evidence
  import opened HonestNetwork
  import opened HonestAgreement
  import opened Provenance
  import Base64

  // ---- One more step of a run -------------------------------------------------------------------------

  lemma {:induction false} ReachesMore(env: Env, from: Net, steps: seq<Step>, mid: Net, step: Step)
    requires Reaches(env, from, steps, mid) && Enabled(env, mid, step)
    ensures Reaches(env, from, steps + [step], Next(env, mid, step))
    decreases |steps|
  {
    hide Enabled, Next;
    if steps == [] {
      assert ([] + [step])[1..] == [];
      assert Reaches(env, Next(env, mid, step), [], Next(env, mid, step));
      assert [] + [step] == [step];
    } else {
      assert (steps + [step])[1..] == steps[1..] + [step];
      ReachesMore(env, Next(env, from, steps[0]), steps[1..], mid, step);
    }
  }

  lemma Enters(env: Env, steps: seq<Step>, net: Net, role: Role, id: Identity) returns (steps': seq<Step>, net': Net)
    requires Reaches(env, INITIAL, steps, net) && Enabled(env, net, Connect(role, id)) && Peer(role) in net.slots
    ensures Reaches(env, INITIAL, steps', net') && net'.ledger == net.ledger && net'.history == net.history
    ensures net'.used == net.used + KeysOf(id)
    ensures var d := net.slots[Peer(role)];
            net'.slots == net.slots[Peer(role) := d.(inbox := d.inbox + [PeerJoined])]
                                   [role := Client(Fresh(role, id), [], [PeerJoined])]
  {
    hide Reaches, GoodIdentity;
    steps', net' := steps + [Connect(role, id)], Next(env, net, Connect(role, id));
    ReachesMore(env, INITIAL, steps, net, Connect(role, id));
  }

  lemma Parts(env: Env, steps: seq<Step>, net: Net, role: Role) returns (steps': seq<Step>, net': Net)
    requires Reaches(env, INITIAL, steps, net) && role in net.slots && Peer(role) in net.slots
    ensures Reaches(env, INITIAL, steps', net') && net'.ledger == net.ledger && net'.history == net.history
    ensures net'.used == net.used
    ensures var d := net.slots[Peer(role)];
            net'.slots == map[Peer(role) := d.(inbox := d.inbox + [PeerLeft])]
  {
    hide Reaches;
    steps', net' := steps + [Disconnect(role)], Next(env, net, Disconnect(role));
    ReachesMore(env, INITIAL, steps, net, Disconnect(role));
    forall r | r in net'.slots
      ensures r == Peer(role)
    {
      assert r.ClientA? || r.ClientB?;
    }
  }

  lemma Passes(env: Env, steps: seq<Step>, net: Net, role: Role) returns (steps': seq<Step>, net': Net)
    requires Reaches(env, INITIAL, steps, net) && role in net.slots && Peer(role) in net.slots
    requires net.slots[role].outbox != []
    ensures Reaches(env, INITIAL, steps', net') && net'.ledger == net.ledger && net'.history == net.history
    ensures net'.used == net.used
    ensures var c, d := net.slots[role], net.slots[Peer(role)];
            net'.slots == net.slots[role := c.(outbox := c.outbox[1..])]
                                   [Peer(role) := d.(inbox := d.inbox + [Relayed(c.outbox[0])])]
  {
    hide Reaches, RelayAccepts, NetInv, NetTraced;
    var authors := Reachable(env, steps, net);
    RelayTraced(env, net, authors, role);
    steps', net' := steps + [Relay(role)], Next(env, net, Relay(role));
    ReachesMore(env, INITIAL, steps, net, Relay(role));
  }

  const IDLE := Coins(None, None)

  lemma Meets(env: Env, steps: seq<Step>, net: Net, role: Role) returns (steps': seq<Step>, net': Net)
    requires Reaches(env, INITIAL, steps, net) && role in net.slots && net.slots[role].inbox != []
    requires net.slots[role].inbox[0] == PeerJoined
    ensures Reaches(env, INITIAL, steps', net') && net'.ledger == net.ledger && net'.history == net.history
    ensures net'.used == net.used
    ensures var c := net.slots[role];
            net'.slots == net.slots[role := Client(c.session.(helloSent := true),
                                                   c.outbox + OwnHelloOnce(env, c.session), c.inbox[1..])]
  {
    hide Reaches, OwnHelloOnce;
    steps', net' := steps + [Deliver(role, IDLE)], Next(env, net, Deliver(role, IDLE));
    ReachesMore(env, INITIAL, steps, net, Deliver(role, IDLE));
  }

  lemma Forgets(env: Env, steps: seq<Step>, net: Net, role: Role) returns (steps': seq<Step>, net': Net)
    requires Reaches(env, INITIAL, steps, net) && role in net.slots && net.slots[role].inbox != []
    requires net.slots[role].inbox[0] == PeerLeft
    ensures Reaches(env, INITIAL, steps', net') && net'.ledger == net.ledger && net'.history == net.history
    ensures net'.used == net.used
    ensures var c := net.slots[role];
            net'.slots == net.slots[role := Client(Fresh(c.session.role, c.session.identity), c.outbox, c.inbox[1..])]
  {
    hide Reaches;
    steps', net' := steps + [Deliver(role, IDLE)], Next(env, net, Deliver(role, IDLE));
    ReachesMore(env, INITIAL, steps, net, Deliver(role, IDLE));
  }

  lemma Handles(env: Env, steps: seq<Step>, net: Net, role: Role, coins: Coins) returns (steps': seq<Step>, net': Net)
    requires Reaches(env, INITIAL, steps, net) && role in net.slots && net.slots[role].inbox != []
    requires net.slots[role].inbox[0].Relayed?
    requires LawfulCoins(env, net.history, net.ledger, net.slots[role].session, net.slots[role].inbox[0].m, coins)
    ensures steps' == steps + [Deliver(role, coins)]
    ensures Reaches(env, INITIAL, steps', net') && net'.used == net.used
    ensures var c := net.slots[role];
            var o := OnMessage(env, net.ledger, c.session, c.inbox[0].m, coins);
            && net'.slots == net.slots[role := Client(o.session, c.outbox + o.result.outgoing, c.inbox[1..])]
            && net'.ledger == o.ledger && net'.history == Recorded(net.history, c.session, o, coins)
  {
    hide Reaches, NetInv, NetTraced, OnMessage, HandleMessage, LawfulCoins, ToObject, Recorded, WellFormed, SentBy,
         GoodIdentity, Sound, Inv;
    var authors := Reachable(env, steps, net);
    HeadFacts(env, net, authors, role);
    var c := net.slots[role];
    HandleWellFormed(env, net.ledger, c.session, c.inbox[0].m, coins);
    steps', net' := steps + [Deliver(role, coins)], Next(env, net, Deliver(role, coins));
    ReachesMore(env, INITIAL, steps, net, Deliver(role, coins));
  }

  // ---- Handling a HELLO ---------------------------------------------------------------------------------

  // A client that was told of its peer and takes its HELLO.
  function HelloText(env: Env, role: Role, id: Identity): Msg {
    OwnHello(env, Fresh(role, id))
  }

  lemma HelloIs(env: Env, role: Role, id: Identity)
    requires GoodIdentity(env, id)
    ensures HelloBy(env, id, HelloText(env, role, id)) && WellFormed(env, HelloText(env, role, id))
    ensures HelloText(env, role, id).sender == Name(role)
    ensures ImportPublicKey(env, HelloText(env, role, id).encryptionPublicKey) == Some(id.encryption)
  {
    OwnHelloIsWellFormed(env, Fresh(role, id));
    HelloImportsTo(env, id, HelloText(env, role, id));
    hide GoodIdentity, WellFormed, ImportPublicKey, ParsePem, Name;
  }

  // The session of an initiator that was told of its peer and created a key exchange for it.
  function Exchanging(id: Identity, peer: Identity, k: KeyCoins): Session {
    Knowing(Fresh(ClientA, id), peer).(state := KeySent, sessionId := Some(Hex(k.idBytes)),
                                       sessionKey := Some(k.sessionKey))
  }

  function RecordOf(id: Identity, peer: Identity, k: KeyCoins): KeyRecord {
    KeyRecord(id.signing, peer.encryption, Hex(k.idBytes), k.ciphertext, k.sessionKey)
  }

  lemma InitiatorOnHello(env: Env, h: History, ledger: Ledger, id: Identity, peer: Identity, k: KeyCoins, coins: Coins)
    requires GoodIdentity(env, id) && GoodIdentity(env, peer) && coins.key == Some(k)
    requires LawfulKeyCoins(env, ledger, peer.encryption, id.signing, k)
    ensures var s := Fresh(ClientA, id).(helloSent := true);
            var o := OnMessage(env, ledger, s, HelloText(env, ClientB, peer), coins);
            && o.session == Exchanging(id, peer, k) && o.result.outgoing == [KeyText(k)]
            && o.ledger.wraps == ledger.wraps[Wrapping(peer.encryption, k.ciphertext) := k.sessionKey]
            && Recorded(h, s, o, coins) == h.(keys := h.keys + {RecordOf(id, peer, k)})
  {
    hide OnMessage, GoodIdentity, WellFormed, ImportPublicKey, ParsePem, Name, LawfulKeyCoins, HelloText, Hex, KeyData;
    HelloIs(env, ClientB, peer);
    ModuliOf(env, id);
    ModuliOf(env, peer);
    var s := Fresh(ClientA, id).(helloSent := true);
    var m := HelloText(env, ClientB, peer);
    InitiatorGreeted(env, ledger, s, m, coins, peer);
    KeyExchangeSentCreates(env, h, ledger, s, m, coins);
    SentWhenCreating(env, ledger, s, m, coins);
    assert [] + [KeyText(k)] == [KeyText(k)];
  }

  lemma ResponderOnHello(env: Env, h: History, ledger: Ledger, id: Identity, peer: Identity, coins: Coins)
    requires GoodIdentity(env, peer)
    ensures var s := Fresh(ClientB, id).(helloSent := true);
            var o := OnMessage(env, ledger, s, HelloText(env, ClientA, peer), coins);
            && o == Outcome(Knowing(s, peer).(state := HelloExchanged), StepResult([], PeerKeysReceived, None), ledger)
            && Recorded(h, s, o, coins) == h
  {
    hide OnMessage, GoodIdentity, WellFormed, ImportPublicKey, ParsePem, Name, HelloText;
    HelloIs(env, ClientA, peer);
    ResponderGreeted(env, ledger, Fresh(ClientB, id).(helloSent := true), HelloText(env, ClientA, peer), coins, peer);
  }

  // ---- A stale KEY_EXCHANGE ---------------------------------------------------------------------------------

  predicate Strangers(ids: seq<Identity>) {
    forall i, j :: 0 <= i < j < |ids| ==> KeysOf(ids[i]) !! KeysOf(ids[j])
  }

  // A fresh initiator is told of its peer, takes its HELLO, and writes its own HELLO and a KEY_EXCHANGE.
  lemma AnswersHello(env: Env, steps: seq<Step>, net: Net, id: Identity, peer: Identity, k: KeyCoins, rest: seq<Item>)
    returns (steps': seq<Step>, net': Net)
    requires Reaches(env, INITIAL, steps, net) && GoodIdentity(env, id) && GoodIdentity(env, peer)
    requires ClientA in net.slots
    requires net.slots[ClientA] == Client(Fresh(ClientA, id), [],
                                          [PeerJoined, Relayed(HelloText(env, ClientB, peer))] + rest)
    requires LawfulKeyCoins(env, net.ledger, peer.encryption, id.signing, k)
    requires forall r :: r in net.history.keys ==> r.sessionId != Hex(k.idBytes)
    ensures Reaches(env, INITIAL, steps', net') && net'.used == net.used
    ensures net'.slots == net.slots[ClientA := Client(Exchanging(id, peer, k),
                                                      [HelloText(env, ClientA, id), KeyText(k)], rest)]
    ensures net'.history == net.history.(keys := net.history.keys + {RecordOf(id, peer, k)})
    ensures net'.ledger.wraps == net.ledger.wraps[Wrapping(peer.encryption, k.ciphertext) := k.sessionKey]
  {
    hide Reaches, GoodIdentity, OnMessage, LawfulKeyCoins, HelloText, KeyText, ImportPublicKey, Recorded, Exchanging,
         Hex, RecordOf;
    var ha, hb := HelloText(env, ClientA, id), HelloText(env, ClientB, peer);
    HelloOnceIs(env, id, peer);
    assert net.slots[ClientA].inbox[1..] == [Relayed(hb)] + rest;
    steps', net' := Meets(env, steps, net, ClientA);
    assert [] + [ha] == [ha] && ([Relayed(hb)] + rest)[1..] == rest;
    InitiatorOnHello(env, net'.history, net'.ledger, id, peer, k, Coins(Some(k), None));
    HelloIs(env, ClientB, peer);
    steps', net' := Handles(env, steps', net', ClientA, Coins(Some(k), None));
    assert [ha] + [KeyText(k)] == [ha, KeyText(k)];
  }

  // Two clients connect, B is told of A, and A makes a key exchange for B's HELLO.
  lemma KeyCreated(env: Env, a: Identity, b: Identity, k: KeyCoins) returns (steps: seq<Step>, net: Net)
    requires GoodIdentity(env, a) && GoodIdentity(env, b) && KeysOf(a) !! KeysOf(b)
    requires LawfulKeyCoins(env, EMPTY_LEDGER, b.encryption, a.signing, k)
    ensures Reaches(env, INITIAL, steps, net) && net.history == History({RecordOf(a, b, k)}, {})
    ensures net.ledger.wraps == map[Wrapping(b.encryption, k.ciphertext) := k.sessionKey]
    ensures net.used == KeysOf(a) + KeysOf(b)
    ensures net.slots == map[
      ClientA := Client(Exchanging(a, b, k), [HelloText(env, ClientA, a), KeyText(k)], []),
      ClientB := Client(Fresh(ClientB, b).(helloSent := true), [], [])]
  {
    hide Reaches, GoodIdentity, LawfulKeyCoins, HelloText, KeyText, Exchanging, OwnHelloOnce, Hex, RecordOf;
    HelloOnceIs(env, a, b);
    steps, net := FirstTwo(env, a, b);
    steps, net := Meets(env, steps, net, ClientB);
    steps, net := Passes(env, steps, net, ClientB);
    assert [PeerJoined, Relayed(HelloText(env, ClientB, b))] + [] == net.slots[ClientA].inbox;
    assert net.slots[ClientB] == Client(Fresh(ClientB, b).(helloSent := true), [], []);
    steps, net := AnswersHello(env, steps, net, a, b, k, []);
    assert net.history.keys == {RecordOf(a, b, k)};
  }

  // B leaves before A's HELLO and KEY_EXCHANGE are passed on; the client that takes the slot gets them.
  lemma StaleKeyReaches(env: Env, a: Identity, b1: Identity, b2: Identity, k: KeyCoins)
    returns (steps: seq<Step>, net: Net)
    requires GoodIdentity(env, a) && GoodIdentity(env, b1) && GoodIdentity(env, b2) && Strangers([a, b1, b2])
    requires LawfulKeyCoins(env, EMPTY_LEDGER, b1.encryption, a.signing, k)
    ensures Reaches(env, INITIAL, steps, net) && ClientB in net.slots && net.history.keys == {RecordOf(a, b1, k)}
    ensures net.slots[ClientB].session == Knowing(Fresh(ClientB, b2), a).(state := HelloExchanged)
    ensures net.slots[ClientB].inbox == [Relayed(KeyText(k))]
  {
    hide Reaches, GoodIdentity, OnMessage, LawfulKeyCoins, HelloText, KeyText, Recorded, OwnHelloOnce;
    var ha := HelloText(env, ClientA, a);
    assert [a, b1, b2][0] == a && [a, b1, b2][1] == b1 && [a, b1, b2][2] == b2;
    steps, net := KeyCreated(env, a, b1, k);
    steps, net := Parts(env, steps, net, ClientB);
    steps, net := Enters(env, steps, net, ClientB, b2);
    steps, net := Passes(env, steps, net, ClientA);
    steps, net := Passes(env, steps, net, ClientA);
    assert net.slots[ClientB] == Client(Fresh(ClientB, b2), [], [PeerJoined, Relayed(ha), Relayed(KeyText(k))]);
    steps, net := Meets(env, steps, net, ClientB);
    ResponderOnHello(env, net.history, net.ledger, b2, a, IDLE);
    steps, net := Handles(env, steps, net, ClientB, IDLE);
  }

  lemma KeyTextIsSigned(k: KeyCoins)
    ensures KeyText(k).KeyExchange? && KeyText(k).sessionId == Hex(k.idBytes)
  {
  }

  // Convergence fails for a responder: for every three clients with different keys, this run leaves the
  // second responder FAILED although no primitive throws.
  lemma ResponderCanFail(env: Env, a: Identity, b1: Identity, b2: Identity, k: KeyCoins, signature: Bytes)
    returns (steps: seq<Step>, net: Net)
    requires GoodIdentity(env, a) && GoodIdentity(env, b1) && GoodIdentity(env, b2) && Strangers([a, b1, b2])
    requires LawfulKeyCoins(env, EMPTY_LEDGER, b1.encryption, a.signing, k)
    requires LawfulSignature(env, b2.signing, signature)
    ensures Reaches(env, INITIAL, steps, net) && FailsNext(env, net, ClientB, Coins(Some(k), Some(signature)))
  {
    hide Reaches, GoodIdentity, OnMessage, LawfulKeyCoins, KeyText, Recorded, LawfulSignature, NetInv, Hex;
    assert [a, b1, b2][1] == b1 && [a, b1, b2][2] == b2;
    steps, net := StaleKeyReaches(env, a, b1, b2, k);
    KeyTextIsSigned(k);
    var coins := Coins(Some(k), Some(signature));
    assert b2.encryption in KeysOf(b2);
    assert RecordOf(a, b1, k).recipient == b1.encryption;
    assert !KeyFor(net.history, b2.encryption, KeyText(k));
    MisdirectedFails(env, steps, net, ClientB, coins);
  }

  // A delivery in which the primitives work makes a client FAILED that was not.
  predicate FailsNext(env: Env, net: Net, role: Role, coins: Coins) {
    && coins.key.Some? && coins.ackSignature.Some? && Enabled(env, net, Deliver(role, coins))
    && net.slots[role].session.state != Failed
    && role in AfterDeliver(env, net, role, coins).slots
    && AfterDeliver(env, net, role, coins).slots[role].session.state == Failed
  }

  lemma MisdirectedFails(env: Env, steps: seq<Step>, net: Net, role: Role, coins: Coins)
    requires Reaches(env, INITIAL, steps, net) && Enabled(env, net, Deliver(role, coins))
    requires net.slots[role].inbox[0].Relayed?
    requires coins.key.Some? && coins.ackSignature.Some? && net.slots[role].session.state != Failed
    requires Misdirected(net.history, net.slots[role].session, net.slots[role].inbox[0].m)
    ensures FailsNext(env, net, role, coins)
  {
    hide Reaches, GoodIdentity, HandleMessage, ToObject, LawfulCoins, Misdirected;
    FailsExactly(env, steps, net, role, coins);
  }

  // ---- A stale acknowledgement ----------------------------------------------------------------------------------

  // A1 leaves before it heard anything. B's HELLO for it reaches A2, whose key exchange B takes for
  // its new HELLO's answer. When A2 leaves, B's second HELLO and its acknowledgement are still to be passed on.
  lemma StaleAckWritten(env: Env, a1: Identity, a2: Identity, b: Identity, k: KeyCoins, signature: Bytes)
    returns (steps: seq<Step>, net: Net)
    requires GoodIdentity(env, a1) && GoodIdentity(env, a2) && GoodIdentity(env, b) && Strangers([a1, a2, b])
    requires LawfulKeyCoins(env, EMPTY_LEDGER, b.encryption, a2.signing, k)
    requires LawfulSignature(env, b.signing, signature)
    ensures Reaches(env, INITIAL, steps, net) && net.history.keys == {RecordOf(a2, b, k)}
    ensures net.ledger.wraps == map[Wrapping(b.encryption, k.ciphertext) := k.sessionKey]
    ensures net.used == KeysOf(a1) + KeysOf(a2) + KeysOf(b)
    ensures ClientA in net.slots && ClientB in net.slots && net.slots[ClientB].inbox == []
    ensures net.slots[ClientB].session.identity == b
    ensures net.slots[ClientB].session.role == ClientB
    ensures net.slots[ClientB].outbox == [HelloText(env, ClientB, b), AckOf(Hex(k.idBytes), signature)]
  {
    hide Reaches, GoodIdentity, LawfulKeyCoins, HelloText, KeyText, LawfulSignature, AckOf, Hex, Exchanging,
         OwnHelloOnce, RecordOf;
    var hb, ha := HelloText(env, ClientB, b), HelloText(env, ClientA, a2);
    assert [a1, a2, b][0] == a1 && [a1, a2, b][1] == a2 && [a1, a2, b][2] == b;
    HelloOnceIs(env, a2, b);
    steps, net := FirstTwo(env, a1, b);
    steps, net := Meets(env, steps, net, ClientB);
    steps, net := Parts(env, steps, net, ClientA);
    steps, net := Enters(env, steps, net, ClientA, a2);
    steps, net := Passes(env, steps, net, ClientB);
    assert [PeerJoined, Relayed(hb)] + [] == net.slots[ClientA].inbox;
    steps, net := AnswersHello(env, steps, net, a2, b, k, []);
    steps, net := Passes(env, steps, net, ClientA);
    steps, net := Passes(env, steps, net, ClientA);
    assert net.slots[ClientB] == Client(Fresh(ClientB, b).(helloSent := true), [],
                                        [PeerLeft, PeerJoined, Relayed(ha), Relayed(KeyText(k))]);
    steps, net := AckWritten(env, steps, net, a2, b, k, signature);
  }

  // B handles the departure, the new peer, its HELLO and its KEY_EXCHANGE.
  lemma AckWritten(env: Env, steps: seq<Step>, net: Net, a2: Identity, b: Identity, k: KeyCoins, signature: Bytes)
    returns (steps': seq<Step>, net': Net)
    requires Reaches(env, INITIAL, steps, net) && GoodIdentity(env, a2) && GoodIdentity(env, b)
    requires LawfulSignature(env, b.signing, signature) && net.history.keys == {RecordOf(a2, b, k)}
    requires ClientA in net.slots && ClientB in net.slots
    requires net.slots[ClientB] == Client(Fresh(ClientB, b).(helloSent := true), [],
                                          [PeerLeft, PeerJoined, Relayed(HelloText(env, ClientA, a2)),
                                           Relayed(KeyText(k))])
    ensures Reaches(env, INITIAL, steps', net') && net'.history.keys == net.history.keys && net'.used == net.used
    ensures net'.ledger.wraps == net.ledger.wraps
    ensures ClientA in net'.slots && ClientB in net'.slots && net'.slots[ClientB].inbox == []
    ensures net'.slots[ClientB].session.identity == b && net'.slots[ClientB].session.role == ClientB
    ensures net'.slots[ClientB].outbox == [HelloText(env, ClientB, b), AckOf(Hex(k.idBytes), signature)]
  {
    hide Reaches, GoodIdentity, OnMessage, HelloText, KeyText, Recorded, LawfulSignature, AckOf, Hex, ImportPublicKey;
    HelloOnceIs(env, a2, b);
    steps', net' := Forgets(env, steps, net, ClientB);
    steps', net' := Meets(env, steps', net', ClientB);
    ResponderOnHello(env, net'.history, net'.ledger, b, a2, IDLE);
    steps', net' := Handles(env, steps', net', ClientB, IDLE);
    assert net'.slots[ClientB] == Client(Knowing(Fresh(ClientB, b), a2).(state := HelloExchanged),
                                         [HelloText(env, ClientB, b)],
                                         [Relayed(KeyText(k))]);
    var coins := Coins(None, Some(signature));
    KeyTextIsSigned(k);
    KeyTaken(env, steps', net', a2, b, k, coins);
    steps', net' := Handles(env, steps', net', ClientB, coins);
  }

  // B takes the KEY_EXCHANGE that was made for it.
  lemma KeyTaken(env: Env, steps: seq<Step>, net: Net, a: Identity, b: Identity, k: KeyCoins, coins: Coins)
    requires Reaches(env, INITIAL, steps, net) && ClientB in net.slots && net.history.keys == {RecordOf(a, b, k)}
    requires net.slots[ClientB].inbox == [Relayed(KeyText(k))]
    requires net.slots[ClientB].session == Knowing(Fresh(ClientB, b), a).(state := HelloExchanged)
    requires coins.ackSignature.Some?
    requires LawfulCoins(env, net.history, net.ledger, net.slots[ClientB].session, KeyText(k), coins)
    ensures var s := net.slots[ClientB].session;
            var o := OnMessage(env, net.ledger, s, KeyText(k), coins);
            && o.session.identity == b && o.session.role == ClientB && o.ledger.wraps == net.ledger.wraps
            && Recorded(net.history, s, o, coins).keys == net.history.keys
            && o.result.outgoing == [AckOf(Hex(k.idBytes), coins.ackSignature.value)]
  {
    hide Reaches, GoodIdentity, OnMessage, KeyText, Hex, NetInv, NetTraced, Sound, Inv, WellFormed, SentBy, Name,
         LawfulCoins, Base64.Encode,
         KeyBy, AckData, VerifyKeyExchange;
    var s := net.slots[ClientB].session;
    var authors := Reachable(env, steps, net);
    HeadFacts(env, net, authors, ClientB);
    KeyTextIsSigned(k);
    var id := AuthorsOf(authors, ClientB)[0];
    AuthorIsKey(env, net.history, net.ledger, id, KeyText(k));
    ModuliOf(env, b);
    assert RecordOf(a, b, k) in net.history.keys;
    ResponderKeyed(env, net.history, net.ledger, net.used, s, KeyText(k), coins, id.signing);
    EstablishedBAccepts(env, net.ledger, s, KeyText(k), coins);
    SentWhenAccepting(env, net.ledger, s, KeyText(k), coins);
    SentAckText(Hex(k.idBytes), coins.ackSignature.value);
  }

  lemma AuthorIsKey(env: Env, h: History, ledger: Ledger, id: Identity, m: Msg)
    requires SentBy(env, h, ledger, ClientA, id, m) && m.KeyExchange?
    ensures KeyBy(h, ledger, id.signing, m) && RelayAccepts(env, ClientA, m)
  {
    hide KeyBy, RelayAccepts;
  }

  // Convergence fails for an initiator too: the third Client A is left FAILED by the acknowledgement
  // meant for the second.
  lemma InitiatorCanFail(env: Env, a1: Identity, a2: Identity, a3: Identity, b: Identity, k2: KeyCoins, k3: KeyCoins,
                         signature: Bytes, other: Bytes)
    returns (steps: seq<Step>, net: Net)
    requires GoodIdentity(env, a1) && GoodIdentity(env, a2) && GoodIdentity(env, a3) && GoodIdentity(env, b)
    requires Strangers([a1, a2, b]) && KeysOf(a3) !! KeysOf(a1) + KeysOf(a2) + KeysOf(b)
    requires LawfulKeyCoins(env, EMPTY_LEDGER, b.encryption, a2.signing, k2)
    requires LawfulSignature(env, b.signing, signature)
    requires LawfulKeyCoins(env, EMPTY_LEDGER, b.encryption, a3.signing, k3) && LawfulSignature(env, a3.signing, other)
    requires k3.ciphertext != k2.ciphertext && Hex(k3.idBytes) != Hex(k2.idBytes)
    ensures Reaches(env, INITIAL, steps, net) && FailsNext(env, net, ClientA, Coins(Some(k3), Some(other)))
  {
    hide Reaches, GoodIdentity, OnMessage, HelloText, Recorded, LawfulSignature, AckOf, Hex, LawfulKeyCoins,
         OwnHelloOnce, KeyText;
    var hb, ack := HelloText(env, ClientB, b), AckOf(Hex(k2.idBytes), signature);
    steps, net := StaleAckWritten(env, a1, a2, b, k2, signature);
    steps, net := Parts(env, steps, net, ClientA);
    steps, net := Enters(env, steps, net, ClientA, a3);
    steps, net := Passes(env, steps, net, ClientB);
    steps, net := Passes(env, steps, net, ClientB);
    assert net.slots[ClientA].inbox == [PeerJoined, Relayed(hb)] + [Relayed(ack)];
    StillLawful(env, net.ledger, b.encryption, a3.signing, k3, k2);
    steps, net := AnswersHello(env, steps, net, a3, b, k3, [Relayed(ack)]);
    var coins := Coins(Some(k3), Some(other));
    AckTextIsSigned(Hex(k2.idBytes), signature);
    MisdirectedFails(env, steps, net, ClientA, coins);
  }

  // A different ciphertext is still free of meaning.
  lemma StillLawful(env: Env, ledger: Ledger, recipient: PublicKey, signer: PublicKey, k: KeyCoins, earlier: KeyCoins)
    requires LawfulKeyCoins(env, EMPTY_LEDGER, recipient, signer, k) && k.ciphertext != earlier.ciphertext
    requires ledger.wraps == map[Wrapping(recipient, earlier.ciphertext) := earlier.sessionKey]
    ensures LawfulKeyCoins(env, ledger, recipient, signer, k)
  {
  }

  lemma AckTextIsSigned(id: string, signature: Bytes)
    ensures AckOf(id, signature).KeyExchangeAck? && AckOf(id, signature).sessionId == id
  {
  }

  lemma HelloOnceIs(env: Env, a: Identity, b: Identity)
    ensures OwnHelloOnce(env, Fresh(ClientA, a)) == [HelloText(env, ClientA, a)]
    ensures OwnHelloOnce(env, Fresh(ClientB, b)) == [HelloText(env, ClientB, b)]
  {
  }

  lemma FirstTwo(env: Env, a: Identity, b: Identity) returns (steps: seq<Step>, net: Net)
    requires GoodIdentity(env, a) && GoodIdentity(env, b) && KeysOf(a) !! KeysOf(b)
    ensures Reaches(env, INITIAL, steps, net) && net.ledger == EMPTY_LEDGER && net.history == History({}, {})
    ensures net.used == KeysOf(a) + KeysOf(b)
    ensures net.slots == map[ClientA := Client(Fresh(ClientA, a), [], [PeerJoined]),
                             ClientB := Client(Fresh(ClientB, b), [], [PeerJoined])]
  {
    hide GoodIdentity;
    var one := Next(env, INITIAL, Connect(ClientA, a));
    assert Reaches(env, one, [], one);
    assert [Connect(ClientA, a)][1..] == [];
    assert Reaches(env, INITIAL, [Connect(ClientA, a)], one);
    assert one.slots == map[ClientA := Client(Fresh(ClientA, a), [], [])];
    steps, net := Enters(env, [Connect(ClientA, a)], one, ClientB, b);
    assert [] + [PeerJoined] == [PeerJoined];
  }

  // ---- Such clients exist ------------------------------------------------------------------------------------

  lemma {:induction false} HexInjective(b: Bytes, c: Bytes)
    requires Hex(b) == Hex(c)
    ensures b == c
  {
    assert |b| == |c|;
    if b != [] {
      var x, y := Hex(b), Hex(c);
      assert x[0] == HexChar(b[0] / 16) && x[1] == HexChar(b[0] % 16) && y[0] == HexChar(c[0] / 16) &&
             y[1] == HexChar(c[0] % 16);
      assert b[0] == c[0];
      assert x[2..] == Hex(b[1..]) && y[2..] == Hex(c[1..]);
      HexInjective(b[1..], c[1..]);
      assert b == [b[0]] + b[1..] && c == [c[0]] + c[1..];
    }
  }

  // A stand-in for key export and import: the header and the fingerprint.
  function Pem(k: PublicKey): string {
    PUBLIC_KEY_HEADER + Hex(k.fingerprint)
  }

  lemma PemInjective(k: PublicKey, k': PublicKey)
    requires Pem(k) == Pem(k')
    ensures k == k'
  {
    assert Hex(k.fingerprint) == Pem(k)[|PUBLIC_KEY_HEADER|..] && Hex(k'.fingerprint) == Pem(k')[|PUBLIC_KEY_HEADER|..];
    HexInjective(k.fingerprint, k'.fingerprint);
  }

  ghost function ParsePlain(s: string): Option<PublicKey> {
    if exists k :: Pem(k) == s then var k :| Pem(k) == s; Some(k) else None
  }

  lemma ParseOfPem(k: PublicKey)
    ensures ParsePlain(Pem(k)) == Some(k)
  {
    var k' := ParsePlain(Pem(k)).value;
    PemInjective(k', k);
  }

  ghost function PlainEnv(): Env {
    Env(s => ParsePlain(s), k => Pem(k), k => 3072)
  }

  lemma MarkHasV(s: string)
    requires Contains(s, PRIVATE_KEY_MARK)
    ensures 'V' in s
  {
    var i :| 0 <= i <= |s| && PRIVATE_KEY_MARK <= s[i..];
    assert s[i..][3] == PRIVATE_KEY_MARK[3];
  }

  lemma PemCharacters(k: PublicKey, i: nat)
    requires i < |Pem(k)|
    ensures Pem(k)[i] != 'V' && Pem(k)[i] as int < 0x80
  {
    var hex := Hex(k.fingerprint);
    if i >= |PUBLIC_KEY_HEADER| {
      assert Pem(k)[i] == hex[i - |PUBLIC_KEY_HEADER|];
      assert IsHexChar(hex[i - |PUBLIC_KEY_HEADER|]);
    } else {
      assert Pem(k)[i] == PUBLIC_KEY_HEADER[i];
    }
  }

  lemma PemHasNoMark(k: PublicKey)
    ensures NoPrivateMark(Pem(k)) && Contains(Pem(k), PUBLIC_KEY_HEADER) && Utf16Length(Pem(k)) == 90
  {
    hide Utf16Length;
    var pem := Pem(k);
    assert PUBLIC_KEY_HEADER <= pem[0..] && |pem| == 90;
    hide Pem, Contains;
    forall i | 0 <= i < |pem|
      ensures pem[i] != 'V' && pem[i] as int < 0x80
    {
      PemCharacters(k, i);
    }
    Utf16LengthBmp(pem);
    assert 'V' !in pem;
    if Contains(pem, PRIVATE_KEY_MARK) {
      MarkHasV(pem);
    }
    HasPrefix(pem, PUBLIC_KEY_HEADER);
  }

  lemma HasPrefix(s: string, sub: string)
    requires sub <= s[0..]
    ensures Contains(s, sub)
  {
  }

  // Keys and identities told apart by a number.
  function NthKey(n: Byte): PublicKey {
    PublicKey(seq(32, _ => n))
  }

  function IdentityOf(n: Byte): Identity
    requires n < 128
  {
    Identity(NthKey(2 * n), NthKey(2 * n + 1))
  }

  lemma KeysDiffer(m: Byte, n: Byte)
    ensures NthKey(m) == NthKey(n) <==> m == n
  {
    assert NthKey(m).fingerprint[0] == m && NthKey(n).fingerprint[0] == n;
  }

  lemma PlainIdentities(n: Byte)
    requires n < 128
    ensures GoodIdentity(PlainEnv(), IdentityOf(n))
  {
    hide Utf16Length, Hex, Contains, Pem, NthKey, ParsePlain;
    KeysDiffer(2 * n, 2 * n + 1);
    PlainKey(NthKey(2 * n));
    PlainKey(NthKey(2 * n + 1));
  }

  lemma PlainKey(k: PublicKey)
    ensures ParsePem(PlainEnv(), PlainEnv().exportKey(k)) == Some(k) && NoPrivateMark(PlainEnv().exportKey(k))
  {
    hide Utf16Length, Hex, Contains, ParsePlain;
    ParseOfPem(k);
    PemHasNoMark(k);
    assert |Pem(k)| > 0;
  }

  lemma StrangersDiffer(m: Byte, n: Byte)
    requires m < 128 && n < 128 && m != n
    ensures KeysOf(IdentityOf(m)) !! KeysOf(IdentityOf(n))
  {
    hide NthKey;
    KeysDiffer(2 * m, 2 * n);
    KeysDiffer(2 * m, 2 * n + 1);
    KeysDiffer(2 * m + 1, 2 * n);
    KeysDiffer(2 * m + 1, 2 * n + 1);
  }

  function CoinsOf(n: Byte): KeyCoins {
    KeyCoins(seq(SESSION_KEY_BYTES, _ => 0), seq(SESSION_ID_BYTES, _ => n), seq(384, _ => n), seq(384, _ => 0))
  }

  lemma CoinsDiffer(m: Byte, n: Byte)
    requires m != n
    ensures CoinsOf(m).ciphertext != CoinsOf(n).ciphertext && Hex(CoinsOf(m).idBytes) != Hex(CoinsOf(n).idBytes)
  {
    assert CoinsOf(m).ciphertext[0] == m && CoinsOf(n).ciphertext[0] == n;
    assert CoinsOf(m).idBytes[0] == m && CoinsOf(n).idBytes[0] == n;
    if Hex(CoinsOf(m).idBytes) == Hex(CoinsOf(n).idBytes) {
      HexInjective(CoinsOf(m).idBytes, CoinsOf(n).idBytes);
    }
  }

  lemma CoinsAreLawful(n: Byte, recipient: PublicKey, signer: PublicKey)
    ensures LawfulKeyCoins(PlainEnv(), EMPTY_LEDGER, recipient, signer, CoinsOf(n))
    ensures LawfulSignature(PlainEnv(), signer, seq(384, _ => 0))
  {
  }

  ghost predicate FailureReachable(role: Role) {
    exists env, steps, net, coins :: Reaches(env, INITIAL, steps, net) && FailsNext(env, net, role, coins)
  }

  // In either slot there is a client that becomes FAILED, in a run from an empty server, by a delivery in
  // which the primitives work.
  lemma BothRolesCanFail()
    ensures FailureReachable(ClientA) && FailureReachable(ClientB)
  {
    hide Reaches, PlainEnv, LawfulKeyCoins, LawfulSignature, CoinsOf, IdentityOf, GoodIdentity, Hex, KeysOf, FailsNext;
    var env, zeros := PlainEnv(), seq(384, _ => 0);
    var w, x, y, z := IdentityOf(0), IdentityOf(1), IdentityOf(2), IdentityOf(3);
    FourStrangers();
    CoinsAreLawful(0, x.encryption, w.signing);
    CoinsAreLawful(0, y.encryption, y.signing);
    var steps, net := ResponderCanFail(env, w, x, y, CoinsOf(0), zeros);
    CoinsAreLawful(0, y.encryption, x.signing);
    CoinsAreLawful(1, y.encryption, z.signing);
    CoinsDiffer(1, 0);
    var steps', net' := InitiatorCanFail(env, w, x, z, y, CoinsOf(0), CoinsOf(1), zeros, zeros);
  }

  lemma FourStrangers()
    ensures Strangers([IdentityOf(0), IdentityOf(1), IdentityOf(2)])
    ensures KeysOf(IdentityOf(3)) !! KeysOf(IdentityOf(0)) + KeysOf(IdentityOf(1)) + KeysOf(IdentityOf(2))
    ensures forall n: Byte :: n < 4 ==> GoodIdentity(PlainEnv(), IdentityOf(n))
  {
    hide KeysOf, GoodIdentity, IdentityOf;
    forall n: Byte | n < 4
      ensures GoodIdentity(PlainEnv(), IdentityOf(n))
    {
      PlainIdentities(n);
    }
    StrangersDiffer(0, 1);
    StrangersDiffer(0, 2);
    StrangersDiffer(1, 2);
    StrangersDiffer(3, 0);
    StrangersDiffer(3, 1);
    StrangersDiffer(3, 2);
  }
}
