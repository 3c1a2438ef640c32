// The trace properties of the two clients under attack are about runs that exist: the network can
// also simply pass the handshake on, and can replay it afterwards.
module AdversaryWitness {
  import opened Wrappers
  import opened Text
  import opened Crypto
  import opened Messages
  import opened Validation
  import opened Handshake
  import opened Sessions
  import opened Evidence
  import opened Adversary
  import Secrecy
  import HonestNetwork
  import HonestAgreement
  import Convergence
  import Concrete = ChurnWitness

  const SILENT := Coins(None, None)

  // ---- Showing a client one message -------------------------------------------------------------

  // The keys in a HELLO are the peer's.
  predicate Genuine(env: Env, w: World, role: Role, m: Msg) {
    m.Hello? ==>
      && ImportPublicKey(env, m.signingPublicKey) == Some(Of(w, Peer(role)).identity.signing)
      && ImportPublicKey(env, m.encryptionPublicKey) == Some(Of(w, Peer(role)).identity.encryption)
  }

  lemma ShowsGenuine(env: Env, w: World, role: Role, m: Msg, coins: Coins)
    requires WellFormed(env, m) && Genuine(env, w, role, m)
    requires LawfulCoins(env, w.history, w.ledger, Of(w, role), m, coins) && FreshCoins(w, coins)
    ensures Enabled(env, w, Inject(role, Obj(ToObject(m)), coins))
    ensures AuthenticEncryption(env, w, role, Obj(ToObject(m)))
    ensures Next(env, w, Inject(role, Obj(ToObject(m)), coins)) ==
      After(w, role, OnMessage(env, w.ledger, Of(w, role), m, coins), coins)
  {
    hide WellFormed, ToObject, FromObject, LawfulCoins, FreshCoins, OnMessage, HandleMessage, ImportPublicKey, Recorded;
    FromToObject(m);
    KindText(m);
    HandleWellFormed(env, w.ledger, Of(w, role), m, coins);
  }

  lemma KindText(m: Msg)
    ensures TextOf(ToObject(m), "type") == "HELLO" <==> m.Hello?
    ensures m.Hello? ==> TextOf(ToObject(m), "signingPublicKey") == m.signingPublicKey
    ensures m.Hello? ==> TextOf(ToObject(m), "encryptionPublicKey") == m.encryptionPublicKey
  {
  }

  // A run in which every HELLO carries the peer's keys, with one more step at its front.
  ghost predicate TrustedRun(env: Env, from: World, steps: seq<Step>, to: World) {
    Reaches(env, from, steps, to) && Secrecy.EncryptionTrusted(env, from, steps)
  }

  lemma RunFrom(env: Env, from: World, step: Step, rest: seq<Step>, to: World)
    requires Enabled(env, from, step) && TrustedRun(env, Next(env, from, step), rest, to)
    requires step.Inject? ==> AuthenticEncryption(env, from, step.role, step.message)
    ensures TrustedRun(env, from, [step] + rest, to)
  {
    hide Enabled, Next, AuthenticEncryption;
    assert ([step] + rest)[1..] == rest;
  }

  lemma NoSteps(env: Env, w: World)
    ensures TrustedRun(env, w, [], w)
  {
  }

  // ---- The handshake, passed on -----------------------------------------------------------------

  // Two clients whose keys survive export and import, and a draw for each.
  predicate CanMeet(env: Env, start: World, k: KeyCoins, signature: Bytes) {
    && Initial(start)
    && HonestNetwork.GoodIdentity(env, start.a.identity) && HonestNetwork.GoodIdentity(env, start.b.identity)
    && LawfulKeyCoins(env, EMPTY_LEDGER, start.b.identity.encryption, start.a.identity.signing, k)
    && k.sessionKey != Utf8(Hex(k.idBytes))
    && LawfulSignature(env, start.b.identity.signing, signature)
  }

  // Both hold this key under the same session ID.
  predicate BothHold(w: World, key: Bytes) {
    && w.a.state == Established && w.b.state == Established
    && w.a.sessionId.Some? && w.a.sessionId == w.b.sessionId
    && w.a.sessionKey == Some(key) && w.b.sessionKey == Some(key)
  }

  // From every two clients and every draw there is a run that makes both ESTABLISHED.
  lemma BothCanBeEstablished(env: Env, start: World, k: KeyCoins, signature: Bytes)
    returns (steps: seq<Step>, w: World)
    requires CanMeet(env, start, k, signature)
    ensures TrustedRun(env, start, steps, w) && BothHold(w, k.sessionKey)
  {
    hide CanMeet, TrustedRun, Enabled, Next, AuthenticEncryption;
    var s1, w1, ke := GreetInitiator(env, start, k, signature);
    var s2, w2 := GreetResponder(env, start, w1, ke, k, signature);
    var s3, w3, ack := PassKey(env, start, w1, w2, ke, k, signature);
    var s4 := PassAck(env, start, w1, w3, ke, ack, k, signature);
    w := Next(env, w3, s4);
    NoSteps(env, w);
    RunFrom(env, w3, s4, [], w);
    RunFrom(env, w2, s3, [s4] + [], w);
    RunFrom(env, w1, s2, [s3] + ([s4] + []), w);
    RunFrom(env, start, s1, [s2] + ([s3] + ([s4] + [])), w);
    steps := [s1] + ([s2] + ([s3] + ([s4] + [])));
  }

  // What A is once it created the key: its KEY_EXCHANGE will be accepted by B.
  predicate Exchanged(env: Env, start: World, w: World, ke: Msg, k: KeyCoins) {
    && w.b.identity == start.b.identity && w.b.role == ClientB
    && w.a.identity == start.a.identity && w.a.role == ClientA && w.a.state == KeySent && w.a.sessionId.Some?
    && w.a.sessionKey == Some(k.sessionKey) && w.a.peerSigning == Some(start.b.identity.signing)
    && VerifyKeyExchange(env, w.ledger, ke, Name(ClientA), Name(ClientB), start.a.identity.signing,
                         start.b.identity.encryption)
       == Success(Accepted(w.a.sessionId.value, k.sessionKey))
  }

  lemma GreetInitiator(env: Env, start: World, k: KeyCoins, signature: Bytes) returns (step: Step, w: World, ke: Msg)
    requires CanMeet(env, start, k, signature)
    ensures Enabled(env, start, step) && w == Next(env, start, step)
    ensures step.Inject? && AuthenticEncryption(env, start, step.role, step.message)
    ensures w.b == start.b && Exchanged(env, start, w, ke, k)
  {
    hide HonestNetwork.GoodIdentity, VerifyKeyExchange, OnMessage, WellFormed, ToObject, LawfulKeyCoins,
         LawfulSignature, ImportPublicKey, Name, Hex, OwnHello, Enabled, Next, AuthenticEncryption;
    var hello, coins := OwnHello(env, start.b), Coins(Some(k), None);
    assert Inv(start.a) && start.a.state == NoSession;
    Convergence.HelloImports(env, start.b);
    HelloKind(env, start.b);
    FirstCoins(env, start, hello, k);
    Convergence.InitiatorTakesHello(env, start.history, start.ledger, start.a, start.b, coins);
    ShowsGenuine(env, start, ClientA, hello, coins);
    step := Inject(ClientA, Obj(ToObject(hello)), coins);
    w := Next(env, start, step);
    var o := OnMessage(env, start.ledger, start.a, hello, coins);
    ke := o.result.outgoing[|o.result.outgoing| - 1];
    KeyOfDraw(env, start.ledger, start.a, hello, coins);
  }

  lemma HelloKind(env: Env, s: Session)
    ensures OwnHello(env, s).Hello?
  {
  }

  lemma FirstCoins(env: Env, start: World, hello: Msg, k: KeyCoins)
    requires Initial(start) && hello.Hello?
    requires ImportPublicKey(env, hello.encryptionPublicKey) == Some(start.b.identity.encryption)
    requires LawfulKeyCoins(env, EMPTY_LEDGER, start.b.identity.encryption, start.a.identity.signing, k)
    requires k.sessionKey != Utf8(Hex(k.idBytes))
    ensures LawfulCoins(env, start.history, start.ledger, start.a, hello, Coins(Some(k), None))
    ensures FreshCoins(start, Coins(Some(k), None))
  {
    hide LawfulKeyCoins, ImportPublicKey, Hex;
  }

  // A session that created a key holds the key that was drawn.
  lemma KeyOfDraw(env: Env, ledger: Ledger, s: Session, m: Msg, coins: Coins)
    requires s.role == ClientA && s.state == NoSession && m.Hello? && coins.key.Some?
    requires OnMessage(env, ledger, s, m, coins).session.state == KeySent
    ensures OnMessage(env, ledger, s, m, coins).session.sessionKey == Some(coins.key.value.sessionKey)
  {
    hide ImportPublicKey, Name, OwnHello, Hex;
  }

  lemma GreetResponder(env: Env, start: World, w: World, ke: Msg, k: KeyCoins, signature: Bytes)
    returns (step: Step, w': World)
    requires CanMeet(env, start, k, signature) && Exchanged(env, start, w, ke, k) && w.b == start.b
    ensures Enabled(env, w, step) && w' == Next(env, w, step)
    ensures step.Inject? && AuthenticEncryption(env, w, step.role, step.message)
    ensures Exchanged(env, start, w', ke, k) && w'.a == w.a
    ensures w'.b.state == HelloExchanged && w'.b.peerSigning == Some(start.a.identity.signing)
  {
    hide HonestNetwork.GoodIdentity, VerifyKeyExchange, OnMessage, WellFormed, ToObject, LawfulKeyCoins,
         LawfulSignature, ImportPublicKey, Name, Hex, OwnHello, Enabled, Next, AuthenticEncryption;
    var hello := OwnHello(env, w.a);
    assert Inv(w.b) && w.b.state == NoSession;
    Convergence.HelloImports(env, w.a);
    HelloKind(env, w.a);
    Convergence.ResponderTakesHello(env, w.ledger, w.a, w.b, SILENT);
    ShowsGenuine(env, w, ClientB, hello, SILENT);
    step := Inject(ClientB, Obj(ToObject(hello)), SILENT);
    w' := Next(env, w, step);
  }

  lemma PassKey(env: Env, start: World, w1: World, w: World, ke: Msg, k: KeyCoins, signature: Bytes)
    returns (step: Step, w': World, ack: Msg)
    requires CanMeet(env, start, k, signature) && Exchanged(env, start, w, ke, k) && w.a == w1.a
    requires w.b.state == HelloExchanged && w.b.peerSigning == Some(start.a.identity.signing)
    ensures Enabled(env, w, step) && w' == Next(env, w, step)
    ensures step.Inject? && AuthenticEncryption(env, w, step.role, step.message)
    ensures w'.a == w1.a && w'.b.identity == start.b.identity && w'.b.state == Established
    ensures w'.b.sessionId == w1.a.sessionId && w'.b.sessionKey == w1.a.sessionKey
    ensures VerifyKeyExchangeAck(env, w'.ledger, ack, Name(ClientB), Name(ClientA), w1.a.sessionId.value,
                                 start.b.identity.signing) == None
  {
    hide HonestNetwork.GoodIdentity, VerifyKeyExchange, VerifyKeyExchangeAck, OnMessage, WellFormed, ToObject,
         LawfulKeyCoins, LawfulSignature, ImportPublicKey, Name, Hex, OwnHello, Enabled, Next, AuthenticEncryption;
    var coins := Coins(None, Some(signature));
    Convergence.ResponderTakesKey(env, w.ledger, w.b, ke, start.a.identity, w.a.sessionId.value, k.sessionKey, coins);
    ShowsGenuine(env, w, ClientB, ke, coins);
    step := Inject(ClientB, Obj(ToObject(ke)), coins);
    w' := Next(env, w, step);
    ack := OnMessage(env, w.ledger, w.b, ke, coins).result.outgoing[0];
  }

  lemma PassAck(env: Env, start: World, w1: World, w: World, ke: Msg, ack: Msg, k: KeyCoins, signature: Bytes)
    returns (step: Step)
    requires CanMeet(env, start, k, signature) && Exchanged(env, start, w1, ke, k)
    requires w.a == w1.a && w.b.state == Established
    requires w.b.sessionId == w1.a.sessionId && w.b.sessionKey == w1.a.sessionKey
    requires VerifyKeyExchangeAck(env, w.ledger, ack, Name(ClientB), Name(ClientA), w1.a.sessionId.value,
                                  start.b.identity.signing) == None
    ensures Enabled(env, w, step) && step.Inject? && AuthenticEncryption(env, w, step.role, step.message)
    ensures BothHold(Next(env, w, step), k.sessionKey)
  {
    hide HonestNetwork.GoodIdentity, VerifyKeyExchange, VerifyKeyExchangeAck, OnMessage, WellFormed, ToObject,
         LawfulKeyCoins, LawfulSignature, ImportPublicKey, Name, Hex, OwnHello, Enabled, Next, AuthenticEncryption;
    Convergence.InitiatorTakesAck(env, w.ledger, w.a, ack, start.b.identity, w.a.sessionId.value, SILENT);
    ShowsGenuine(env, w, ClientA, ack, SILENT);
    step := Inject(ClientA, Obj(ToObject(ack)), SILENT);
  }

  // ---- The handshake, replayed ------------------------------------------------------------------

  // A run in which B becomes ESTABLISHED twice on the key that A created once: A is in the same
  // session at both points, and between them B had no session.
  lemma EstablishedTwice(env: Env, start: World, k: KeyCoins, signature: Bytes)
    returns (steps: seq<Step>, w: World, again: seq<Step>, w': World)
    requires CanMeet(env, start, k, signature)
    ensures Reaches(env, start, steps, w) && BothHold(w, k.sessionKey)
    ensures again != [] && again[0] == Notice(ClientB, false) && Next(env, w, again[0]).b.state == NoSession
    ensures Reaches(env, w, again, w') && w'.a == w.a && w'.b == w.b
  {
    hide Reaches, Initial, HonestNetwork.GoodIdentity, LawfulKeyCoins, LawfulSignature, Hex, ToObject,
         Secrecy.EncryptionTrusted;
    steps, w := BothCanBeEstablished(env, start, k, signature);
    var hello, ke, coins;
    hello, ke, coins, w' := ReplayRun(env, start, steps, w);
    again := [Notice(ClientB, false), Inject(ClientB, Obj(ToObject(hello)), Coins(None, None)),
              Inject(ClientB, Obj(ToObject(ke)), coins)];
  }

  // ---- Such clients exist -----------------------------------------------------------------------

  function StartOf(a: Identity, b: Identity): World {
    World(Fresh(ClientA, a), Fresh(ClientB, b), EMPTY_LEDGER, History({}, {}), {})
  }

  // The premises of agreement and secrecy hold of a run that makes both clients ESTABLISHED.
  ghost predicate SharedSecretReachable() {
    exists env, start, steps, w, key ::
      && Initial(start) && TrustedRun(env, start, steps, w) && BothHold(w, key)
      && Secrecy.PlainIdentity(env, start.a.identity) && Secrecy.PlainIdentity(env, start.b.identity)
  }

  lemma BothCanShareASecret()
    ensures SharedSecretReachable()
  {
    hide TrustedRun, Concrete.PlainEnv, LawfulKeyCoins, LawfulSignature, Concrete.CoinsOf, Concrete.IdentityOf,
         HonestNetwork.GoodIdentity, Hex, Secrecy.PlainIdentity, Initial, BothHold;
    var env, a, b, k := Concrete.PlainEnv(), Concrete.IdentityOf(0), Concrete.IdentityOf(1), Concrete.CoinsOf(0);
    var start, zeros := StartOf(a, b), seq(384, _ => 0);
    Concrete.PlainIdentities(0);
    Concrete.PlainIdentities(1);
    StartIsInitial();
    Concrete.CoinsAreLawful(0, b.encryption, a.signing);
    Concrete.CoinsAreLawful(0, a.encryption, b.signing);
    ZeroKeyIsNoId();
    var steps, w := BothCanBeEstablished(env, start, k, zeros);
    IdentityIsPlain(0);
    IdentityIsPlain(1);
  }

  lemma StartIsInitial()
    ensures Initial(StartOf(Concrete.IdentityOf(0), Concrete.IdentityOf(1)))
  {
    Concrete.KeysDiffer(0, 1);
    Concrete.KeysDiffer(0, 2);
    Concrete.KeysDiffer(0, 3);
    Concrete.KeysDiffer(1, 2);
    Concrete.KeysDiffer(1, 3);
    Concrete.KeysDiffer(2, 3);
    hide Concrete.NthKey;
    FourKeys(Concrete.NthKey(1), Concrete.NthKey(3), Concrete.NthKey(0), Concrete.NthKey(2));
  }

  lemma FourKeys(p: PublicKey, q: PublicKey, r: PublicKey, s: PublicKey)
    requires p != q && p != r && p != s && q != r && q != s && r != s
    ensures |{p, q, r, s}| == 4
  {
    assert {p, q, r, s} == {p} + {q} + {r} + {s};
  }

  lemma ZeroKeyIsNoId()
    ensures Concrete.CoinsOf(0).sessionKey != Utf8(Hex(Concrete.CoinsOf(0).idBytes))
  {
    var id := Hex(Concrete.CoinsOf(0).idBytes);
    assert IsHexChar(id[0]);
    assert Concrete.CoinsOf(0).sessionKey[0] == 0;
    assert Utf8(id)[0] == id[0] as Byte;
  }

  lemma IdentityIsPlain(n: Byte)
    requires n < 128
    ensures Secrecy.PlainIdentity(Concrete.PlainEnv(), Concrete.IdentityOf(n))
  {
    hide Utf8, Concrete.NthKey, Concrete.ParsePlain;
    PemSize(Concrete.NthKey(2 * n));
    PemSize(Concrete.NthKey(2 * n + 1));
  }

  lemma PemSize(k: PublicKey)
    ensures ByteLength(Concrete.Pem(k)) == 90
  {
    var pem := Concrete.Pem(k);
    assert |pem| == 90;
    hide Concrete.Pem;
    forall i | 0 <= i < |pem|
      ensures pem[i] as int < 0x80
    {
      Concrete.PemCharacters(k, i);
    }
    AsciiByteLength(pem);
  }
}
