// The two clients with a network that may drop, delay, replay, reorder and invent anything. Only
// one thing is trusted: the signing keys in the HELLOs a client accepts are its peer's.
module Adversary {
  import opened Wrappers
  import opened Text
  import opened Crypto
  import opened Messages
  import opened Validation
  import opened Handshake
  import opened Sessions
  import opened Evidence
  import Base64
  import Canonical

  // ---- State and steps -----------------------------------------------------------------------------

  // wire is everything the two clients ever sent.
  datatype World = World(a: Session, b: Session, ledger: Ledger, history: History, wire: set<Msg>)

  datatype Step =
    | Notice(role: Role, joined: bool)                 // a presence notice, true or not
    | Inject(role: Role, message: Json, coins: Coins)  // any message at all
    | Compute(ledger: Ledger)                          // the adversary signs and encrypts for itself

  function Of(w: World, role: Role): Session {
    if role == ClientA then w.a else w.b
  }

  function With(w: World, role: Role, s: Session): World {
    if role == ClientA then w.(a := s) else w.(b := s)
  }

  // The keys whose private halves only the two clients hold.
  function SigningKeys(w: World): set<PublicKey> {
    {w.a.identity.signing, w.b.identity.signing}
  }

  // What the adversary can add: signatures under keys of its own, or other signatures on data that
  // was signed; ciphertexts of its own making.
  predicate CanCompute(w: World, ledger: Ledger) {
    && w.ledger.signatures <= ledger.signatures
    && (forall s :: s in ledger.signatures && s.signer in SigningKeys(w) && s !in w.ledger.signatures ==>
        exists t :: t in w.ledger.signatures && t.signer == s.signer && t.data == s.data)
    && (forall k :: k in w.ledger.wraps ==> k in ledger.wraps && ledger.wraps[k] == w.ledger.wraps[k])
  }

  // The trust assumption: a HELLO shown to a client carries its peer's signing key.
  predicate Authentic(env: Env, w: World, role: Role, j: Json) {
    j.Obj? && TextOf(j.fields, "type") == "HELLO" ==>
      ImportPublicKey(env, TextOf(j.fields, "signingPublicKey")) == Some(Of(w, Peer(role)).identity.signing)
  }

  // The same for the encryption key. Only the last secrecy statement asks for it.
  predicate AuthenticEncryption(env: Env, w: World, role: Role, j: Json) {
    j.Obj? && TextOf(j.fields, "type") == "HELLO" ==>
      ImportPublicKey(env, TextOf(j.fields, "encryptionPublicKey")) == Some(Of(w, Peer(role)).identity.encryption)
  }

  // Session keys and IDs are drawn fresh: they differ from each other and from all that was sent.
  predicate FreshCoins(w: World, coins: Coins) {
    coins.key.Some? ==>
      var key, id := coins.key.value.sessionKey, Hex(coins.key.value.idBytes);
      && (forall r :: r in w.history.keys ==>
            r.sessionKey != key && r.sessionKey != Utf8(id) && key != Utf8(r.sessionId))
      && key != Utf8(id)
      && (forall m :: m in w.wire ==> key !in FieldBytes(m))
  }

  // The byte strings in the fields of a message, texts as UTF-8 and base64 fields decoded.
  function FieldBytes(m: Msg): set<Bytes> {
    match m
    case Hello(_, s, e, g) => {Utf8(s), Utf8(e), Utf8(g)}
    case KeyExchange(_, s, r, i, k, g) =>
      {Utf8(s), Utf8(r), Utf8(i), Utf8(k), Utf8(g)}
      + (if Base64.IsShaped(k) then {Base64.Decode(k)} else {})
      + (if Base64.IsShaped(g) then {Base64.Decode(g)} else {})
    case KeyExchangeAck(_, s, r, i, g) =>
      {Utf8(s), Utf8(r), Utf8(i), Utf8(g)} + (if Base64.IsShaped(g) then {Base64.Decode(g)} else {})
  }

  predicate Enabled(env: Env, w: World, step: Step) {
    match step
    case Notice(_, _) => true
    case Inject(role, j, coins) =>
      && Authentic(env, w, role, j)
      && (j.Obj? ==> LawfulCoins(env, w.history, w.ledger, Of(w, role), FromObject(j.fields), coins))
      && FreshCoins(w, coins)
    case Compute(ledger) => CanCompute(w, ledger)
  }

  function Sent(ms: seq<Msg>): set<Msg> {
    set m | m in ms
  }

  function Next(env: Env, w: World, step: Step): World {
    match step
    case Notice(role, joined) =>
      if joined then
        var (s, r) := OnPeerJoined(env, Of(w, role));
        With(w, role, s).(wire := w.wire + Sent(r.outgoing))
      else With(w, role, OnPeerLeft(Of(w, role)))
    case Inject(role, j, coins) =>
      var o := HandleMessage(env, w.ledger, Of(w, role), j, coins);
      With(w, role, o.session).(ledger := o.ledger, history := Recorded(w.history, Of(w, role), o, coins),
                                wire := w.wire + Sent(o.result.outgoing))
    case Compute(ledger) => w.(ledger := ledger)
  }

  // Two clients with four different keys, before anything happened.
  predicate Initial(w: World) {
    && w.a == Fresh(ClientA, w.a.identity) && w.b == Fresh(ClientB, w.b.identity)
    && |{w.a.identity.signing, w.b.identity.signing, w.a.identity.encryption, w.b.identity.encryption}| == 4
    && w.ledger == EMPTY_LEDGER && w.history == History({}, {}) && w.wire == {}
  }

  ghost predicate Reaches(env: Env, from: World, steps: seq<Step>, to: World)
    decreases |steps|
  {
    if steps == [] then from == to
    else Enabled(env, from, steps[0]) && Reaches(env, Next(env, from, steps[0]), steps[1..], to)
  }

  // ---- Invariant -----------------------------------------------------------------------------------------

  ghost predicate InitiatorOk(w: World) {
    && w.a.role == ClientA && Inv(w.a)
    && (w.a.state != NoSession ==> w.a.peerSigning == Some(w.b.identity.signing))
    && (w.a.state in {KeySent, Established} ==>
        exists r :: r in w.history.keys && Some(r.sessionId) == w.a.sessionId && Some(r.sessionKey) == w.a.sessionKey
                    && Some(r.recipient) == w.a.peerEncryption)
    && (w.a.state == Established ==> exists k :: k in w.history.acks && Some(k.sessionId) == w.a.sessionId)
  }

  ghost predicate ResponderOk(w: World) {
    && w.b.role == ClientB && Inv(w.b)
    && (w.b.state != NoSession ==> w.b.peerSigning == Some(w.a.identity.signing))
    && (w.b.state == Established ==>
        exists k :: k in w.history.acks && Some(k.sessionId) == w.b.sessionId && Some(k.sessionKey) == w.b.sessionKey)
  }

  // Only A creates keys and only B acknowledges them, and then exactly a key created for it.
  predicate BooksOk(w: World) {
    && (forall r :: r in w.history.keys ==> r.signer == w.a.identity.signing)
    && (forall k :: k in w.history.acks ==>
        k.signer == w.b.identity.signing
        && exists r :: r in w.history.keys && r.sessionId == k.sessionId && r.sessionKey == k.sessionKey
                       && r.recipient == w.b.identity.encryption)
  }

  ghost predicate WorldInv(w: World) {
    && Sound(w.history, w.ledger, SigningKeys(w))
    && InitiatorOk(w) && ResponderOk(w) && BooksOk(w)
  }

  // ---- Steps keep the invariant ------------------------------------------------------------------------------

  lemma NoticeKeepsInv(env: Env, w: World, role: Role, joined: bool)
    requires WorldInv(w)
    ensures WorldInv(Next(env, w, Notice(role, joined)))
  {
    hide Sound, OwnHelloOnce, BooksOk;
    var w' := Next(env, w, Notice(role, joined));
    BooksDependOn(w, w');
    if joined {
      assert w'.a == w.a.(helloSent := w'.a.helloSent) && w'.b == w.b.(helloSent := w'.b.helloSent);
    }
  }

  lemma BooksDependOn(w: World, w': World)
    requires BooksOk(w) && w'.history == w.history
    requires w'.a.identity == w.a.identity && w'.b.identity == w.b.identity
    ensures BooksOk(w')
  {
  }

  lemma ComputeKeepsInv(env: Env, w: World, ledger: Ledger)
    requires WorldInv(w) && CanCompute(w, ledger)
    ensures WorldInv(Next(env, w, Compute(ledger)))
  {
    hide KeyData, AckData, BooksOk;
    var w' := Next(env, w, Compute(ledger));
    BooksDependOn(w, w');
    forall s | s in ledger.signatures && s.signer in SigningKeys(w)
      ensures Explained(w.history, s)
    {
      if s !in w.ledger.signatures {
        var t :| t in w.ledger.signatures && t.signer == s.signer && t.data == s.data;
        assert Explained(w.history, t);
        SameDataSameExplanation(w.history, t, s);
      }
    }
  }

  lemma SameDataSameExplanation(h: History, t: Signature, s: Signature)
    requires Explained(h, t) && t.signer == s.signer && t.data == s.data
    ensures Explained(h, s)
  {
    hide KeyData, AckData;
    if exists r :: ExplainsAsKey(h, t, r) {
      var r :| ExplainsAsKey(h, t, r);
      assert ExplainsAsKey(h, s, r);
    } else {
      var a :| ExplainsAsAck(h, t, a);
      assert ExplainsAsAck(h, s, a);
    }
  }

  // The world after a well-formed message, with the part of the step's definition it stands for.
  function After(w: World, role: Role, o: Outcome, coins: Coins): World {
    With(w, role, o.session).(ledger := o.ledger, history := Recorded(w.history, Of(w, role), o, coins),
                              wire := w.wire + Sent(o.result.outgoing))
  }

  // The signing key of an accepted HELLO is the peer's.
  predicate HelloTrusted(env: Env, w: World, role: Role, m: Msg) {
    m.Hello? ==> ImportPublicKey(env, m.signingPublicKey) == Some(Of(w, Peer(role)).identity.signing)
  }

  lemma InitiatorKeepsInv(env: Env, w: World, m: Msg, coins: Coins)
    requires WorldInv(w) && WellFormed(env, m) && HelloTrusted(env, w, ClientA, m)
    requires LawfulCoins(env, w.history, w.ledger, w.a, m, coins)
    ensures WorldInv(After(w, ClientA, OnMessage(env, w.ledger, w.a, m, coins), coins))
  {
    hide OnMessage, WellFormed, Sound, ImportPublicKey, Hex, KeyData, VerifyKeyExchangeAck, LawfulCoins, ResponderOk,
         BooksOk, Inv;
    var o := OnMessage(env, w.ledger, w.a, m, coins);
    var w' := After(w, ClientA, o, coins);
    StepKeepsSound(env, w.history, w.ledger, SigningKeys(w), w.a, m, coins);
    OnMessageInv(env, w.ledger, w.a, m, coins);
    IdentityKept(env, w.ledger, w.a, m, coins);
    match o.result.event
    case KeyExchangeSent =>
      KeyExchangeSentCreates(env, w.history, w.ledger, w.a, m, coins);
      CreatorsBooks(w, w', coins.key.value);
    case SessionEstablished =>
      EstablishedAVerifies(env, w.ledger, w.a, m, coins);
      AInvPeer(w);
      var k := AcceptedAckIsRecorded(env, w.history, w.ledger, SigningKeys(w), m, w.a.peerSigning.value,
                                     w.a.sessionId.value);
      BooksDependOn(w, w');
      ResponderDependsOn(w, w');
    case _ =>
      OtherSteps(env, w.ledger, w.a, m, coins);
      BooksDependOn(w, w');
      ResponderDependsOn(w, w');
      KeysOnlyInSession(w.a);
      KeysOnlyInSession(o.session);
  }

  lemma AInvPeer(w: World)
    requires InitiatorOk(w) && w.a.state != NoSession
    ensures w.a.peerSigning == Some(w.b.identity.signing)
  {
  }

  lemma KeysOnlyInSession(s: Session)
    requires Inv(s)
    ensures s.peerSigning.None? <==> s.state == NoSession
  {
  }

  lemma IdentityKept(env: Env, ledger: Ledger, s: Session, m: Msg, coins: Coins)
    ensures OnMessage(env, ledger, s, m, coins).session.role == s.role
    ensures OnMessage(env, ledger, s, m, coins).session.identity == s.identity
  {
    hide CreateKeyExchange, VerifyKeyExchange, VerifyKeyExchangeAck, CreateKeyExchangeAck, ImportPublicKey, Name;
  }

  lemma ResponderDependsOn(w: World, w': World)
    requires ResponderOk(w) && w'.b == w.b && w'.a.identity == w.a.identity && w.history.acks <= w'.history.acks
    ensures ResponderOk(w')
  {
    hide Inv;
  }

  // Creating a key adds a record of A's and touches nothing of B's.
  lemma CreatorsBooks(w: World, w': World, c: KeyCoins)
    requires BooksOk(w) && ResponderOk(w) && w'.b == w.b && w'.a.identity == w.a.identity
    requires w'.a.peerEncryption.Some?
    requires w'.history == w.history.(keys := w.history.keys +
      {KeyRecord(w.a.identity.signing, w'.a.peerEncryption.value, Hex(c.idBytes), c.ciphertext, c.sessionKey)})
    ensures BooksOk(w') && ResponderOk(w')
  {
    hide Hex, Inv;
  }

  lemma ResponderKeepsInv(env: Env, w: World, m: Msg, coins: Coins)
    requires WorldInv(w) && WellFormed(env, m) && HelloTrusted(env, w, ClientB, m)
    requires LawfulCoins(env, w.history, w.ledger, w.b, m, coins)
    ensures WorldInv(After(w, ClientB, OnMessage(env, w.ledger, w.b, m, coins), coins))
  {
    hide OnMessage, WellFormed, Sound, ImportPublicKey, Hex, AckData, VerifyKeyExchange, LawfulCoins, InitiatorOk,
         BooksOk, Inv;
    var o := OnMessage(env, w.ledger, w.b, m, coins);
    var w' := After(w, ClientB, o, coins);
    StepKeepsSound(env, w.history, w.ledger, SigningKeys(w), w.b, m, coins);
    OnMessageInv(env, w.ledger, w.b, m, coins);
    IdentityKept(env, w.ledger, w.b, m, coins);
    match o.result.event
    case KeyExchangeSent =>
      KeyExchangeSentCreates(env, w.history, w.ledger, w.b, m, coins);
    case SessionEstablished =>
      EstablishedBAccepts(env, w.ledger, w.b, m, coins);
      var r := AcceptedKeyIsRecorded(env, w.history, w.ledger, SigningKeys(w), m, w.b.peerSigning.value,
                                     w.b.identity.encryption,
                                     m.sessionId, o.session.sessionKey.value);
      var k := AckRecord(w.b.identity.signing, m.sessionId, o.session.sessionKey.value);
      AcceptorsBooks(w, w', r, k);
    case _ =>
      OtherSteps(env, w.ledger, w.b, m, coins);
      BooksDependOn(w, w');
      InitiatorDependsOn(w, w');
      KeysOnlyInSession(w.b);
      KeysOnlyInSession(o.session);
  }

  lemma InitiatorDependsOn(w: World, w': World)
    requires InitiatorOk(w) && w'.a == w.a && w'.b.identity == w.b.identity
    requires w'.history.keys == w.history.keys && w.history.acks <= w'.history.acks
    ensures InitiatorOk(w')
  {
    hide Inv;
  }

  // Accepting a key adds an acknowledgement of a recorded key wrapped for B.
  lemma AcceptorsBooks(w: World, w': World, r: KeyRecord, k: AckRecord)
    requires BooksOk(w) && InitiatorOk(w) && w'.a == w.a && w'.b.identity == w.b.identity
    requires k.signer == w.b.identity.signing && r in w.history.keys
    requires r.sessionId == k.sessionId && r.sessionKey == k.sessionKey && r.recipient == w.b.identity.encryption
    requires w'.history == w.history.(acks := w.history.acks + {k})
    ensures BooksOk(w') && InitiatorOk(w')
  {
    InitiatorDependsOn(w, w');
  }

  lemma InjectKeepsInv(env: Env, w: World, role: Role, j: Json, coins: Coins)
    requires WorldInv(w) && Enabled(env, w, Inject(role, j, coins))
    ensures WorldInv(Next(env, w, Inject(role, j, coins)))
  {
    hide WorldInv, LawfulCoins, OnMessage, HandleMessage, WellFormed, ToObject, FromObject, FreshCoins, ImportPublicKey;
    var s := Of(w, role);
    HandleMessageCases(env, w.ledger, s, j, coins);
    var o := HandleMessage(env, w.ledger, s, j, coins);
    var w' := Next(env, w, Inject(role, j, coins));
    if o.session == s && o.ledger == w.ledger && o.result.outgoing == [] && o.result.error.Some? {
      RefusalRecordsNothing(env, w.ledger, s, j, coins, w.history);
      assert Sent([]) == {};
      assert w' == w;
    } else {
      var m: Msg :| WellFormed(env, m) && j == Obj(ToObject(m)) && o == OnMessage(env, w.ledger, s, m, coins);
      FromToObject(m);
      HelloFields(m);
      if role == ClientA {
        InitiatorKeepsInv(env, w, m, coins);
      } else {
        ResponderKeepsInv(env, w, m, coins);
      }
    }
  }

  lemma HelloFields(m: Msg)
    ensures m.Hello? ==> TextOf(ToObject(m), "type") == "HELLO"
    ensures m.Hello? ==> TextOf(ToObject(m), "signingPublicKey") == m.signingPublicKey
    ensures m.Hello? ==> TextOf(ToObject(m), "encryptionPublicKey") == m.encryptionPublicKey
  {
  }

  lemma RefusalRecordsNothing(env: Env, ledger: Ledger, s: Session, j: Json, coins: Coins, h: History)
    requires HandleMessage(env, ledger, s, j, coins).result.error.Some?
    ensures Recorded(h, s, HandleMessage(env, ledger, s, j, coins), coins) == h
  {
    hide CreateKeyExchange, VerifyKeyExchange, VerifyKeyExchangeAck, CreateKeyExchangeAck, ImportPublicKey, Name,
         ValidateMessage, FromObject;
  }

  lemma StepKeepsInv(env: Env, w: World, step: Step)
    requires WorldInv(w) && Enabled(env, w, step)
    ensures WorldInv(Next(env, w, step))
  {
    hide WorldInv, LawfulCoins, CanCompute, HandleMessage, FreshCoins;
    match step
    case Notice(role, joined) => NoticeKeepsInv(env, w, role, joined);
    case Inject(role, j, coins) => InjectKeepsInv(env, w, role, j, coins);
    case Compute(ledger) => ComputeKeepsInv(env, w, ledger);
  }

  lemma {:induction false} RunKeepsInv(env: Env, from: World, steps: seq<Step>, to: World)
    requires WorldInv(from) && Reaches(env, from, steps, to)
    ensures WorldInv(to)
    decreases |steps|
  {
    hide WorldInv, Next, Enabled;
    if steps != [] {
      StepKeepsInv(env, from, steps[0]);
      RunKeepsInv(env, Next(env, from, steps[0]), steps[1..], to);
    }
  }

  lemma InitialInv(w: World)
    requires Initial(w)
    ensures WorldInv(w)
  {
  }

  // ---- Agreement ------------------------------------------------------------------------------------------------

  // An acknowledgement is recorded by the step that makes B ESTABLISHED.
  lemma StepAcknowledges(env: Env, w: World, step: Step, k: AckRecord)
    requires WorldInv(w) && Enabled(env, w, step) && k in Next(env, w, step).history.acks && k !in w.history.acks
    ensures var b := Next(env, w, step).b;
            b.state == Established && b.sessionId == Some(k.sessionId) && b.sessionKey == Some(k.sessionKey)
  {
    hide Sound, BooksOk, OnMessage, HandleMessage, WellFormed, ToObject, FromObject, LawfulCoins, FreshCoins,
         ImportPublicKey, CanCompute, Inv, Hex;
    if step.Inject? {
      var s := Of(w, step.role);
      HandleMessageCases(env, w.ledger, s, step.message, step.coins);
      var o := HandleMessage(env, w.ledger, s, step.message, step.coins);
      if o.session == s && o.ledger == w.ledger && o.result.outgoing == [] && o.result.error.Some? {
        RefusalRecordsNothing(env, w.ledger, s, step.message, step.coins, w.history);
      } else {
        var m: Msg :| WellFormed(env, m) && step.message == Obj(ToObject(m))
                      && o == OnMessage(env, w.ledger, s, m, step.coins);
        EstablishedEvent(env, w.ledger, s, m, step.coins);
      }
    }
  }

  lemma EstablishedEvent(env: Env, ledger: Ledger, s: Session, m: Msg, coins: Coins)
    ensures OnMessage(env, ledger, s, m, coins).result.event == SessionEstablished ==>
              OnMessage(env, ledger, s, m, coins).session.state == Established
  {
    hide CreateKeyExchange, VerifyKeyExchange, VerifyKeyExchangeAck, CreateKeyExchangeAck, ImportPublicKey, Name;
  }

  // B was ESTABLISHED with these at some point of the run.
  ghost predicate WasEstablished(env: Env, from: World, steps: seq<Step>, id: Option<string>, key: Option<Bytes>) {
    exists n, mid :: 0 <= n <= |steps| && EstablishedAt(env, from, steps[..n], mid, id, key)
  }

  ghost predicate EstablishedAt(env: Env, from: World, steps: seq<Step>, mid: World, id: Option<string>,
                                key: Option<Bytes>) {
    Reaches(env, from, steps, mid) && mid.b.state == Established && mid.b.sessionId == id && mid.b.sessionKey == key
  }

  lemma {:induction false} AcknowledgedBefore(env: Env, from: World, steps: seq<Step>, to: World, k: AckRecord)
    requires WorldInv(from) && Reaches(env, from, steps, to) && k in to.history.acks && k !in from.history.acks
    ensures WasEstablished(env, from, steps, Some(k.sessionId), Some(k.sessionKey))
    decreases |steps|
  {
    hide WorldInv, Next, Enabled;
    var next := Next(env, from, steps[0]);
    if k in next.history.acks {
      StepAcknowledges(env, from, steps[0], k);
      assert Reaches(env, next, [], next);
      assert steps[..1] == [steps[0]] && [steps[0]][1..] == [];
      assert EstablishedAt(env, from, steps[..1], next, Some(k.sessionId), Some(k.sessionKey));
    } else {
      StepKeepsInv(env, from, steps[0]);
      AcknowledgedBefore(env, next, steps[1..], to, k);
      var n, mid :| 0 <= n <= |steps[1..]|
        && EstablishedAt(env, next, steps[1..][..n], mid, Some(k.sessionId), Some(k.sessionKey));
      assert steps[..n + 1][1..] == steps[1..][..n] && steps[..n + 1][0] == steps[0];
      assert EstablishedAt(env, from, steps[..n + 1], mid, Some(k.sessionId), Some(k.sessionKey));
    }
  }

  // Over every run: if A is ESTABLISHED with an ID and a key, then at some point of the run B was
  // ESTABLISHED with the same ID and key, and A had created that key and wrapped it for B.
  lemma InitiatorAgreement(env: Env, start: World, steps: seq<Step>, w: World)
    requires Initial(start) && Reaches(env, start, steps, w) && w.a.state == Established
    ensures w.a.sessionId.Some? && w.a.sessionKey.Some?
    ensures WasEstablished(env, start, steps, w.a.sessionId, w.a.sessionKey)
    ensures AckRecord(w.b.identity.signing, w.a.sessionId.value, w.a.sessionKey.value) in w.history.acks
    ensures w.a.peerEncryption == Some(w.b.identity.encryption)
  {
    InitialInv(start);
    RunKeepsInv(env, start, steps, w);
    hide SignaturesExplained, WrapsRecorded, RecordsValid, ResponderOk, Reaches, WasEstablished;
    var k :| k in w.history.acks && Some(k.sessionId) == w.a.sessionId;
    var r :| r in w.history.keys && r.sessionId == k.sessionId && r.sessionKey == k.sessionKey
             && r.recipient == w.b.identity.encryption;
    AcknowledgedBefore(env, start, steps, w, k);
  }

  // Over every run: B is ESTABLISHED only with an ID and a key that A created and wrapped for B.
  lemma ResponderAgreement(env: Env, start: World, steps: seq<Step>, w: World)
    requires Initial(start) && Reaches(env, start, steps, w) && w.b.state == Established
    ensures w.b.sessionId.Some? && w.b.sessionKey.Some?
    ensures exists ciphertext ::
      KeyRecord(w.a.identity.signing, w.b.identity.encryption, w.b.sessionId.value, ciphertext,
                w.b.sessionKey.value) in w.history.keys
  {
    InitialInv(start);
    RunKeepsInv(env, start, steps, w);
    hide Sound, InitiatorOk, Reaches;
    var k :| k in w.history.acks && Some(k.sessionId) == w.b.sessionId && Some(k.sessionKey) == w.b.sessionKey;
    var r :| r in w.history.keys && r.sessionId == k.sessionId && r.sessionKey == k.sessionKey
             && r.recipient == w.b.identity.encryption;
    assert r == KeyRecord(w.a.identity.signing, w.b.identity.encryption, w.b.sessionId.value, r.ciphertext,
                          w.b.sessionKey.value);
  }

  // Over every run: an ID belongs to at most one created key, and B accepted at most one key under it.
  lemma IdNamesOneKey(env: Env, start: World, steps: seq<Step>, w: World)
    requires Initial(start) && Reaches(env, start, steps, w)
    ensures IdsUnique(w.history)
    ensures forall k, k' :: k in w.history.acks && k' in w.history.acks && k.sessionId == k'.sessionId ==> k == k'
  {
    InitialInv(start);
    RunKeepsInv(env, start, steps, w);
    hide SignaturesExplained, WrapsRecorded, RecordsValid, InitiatorOk, ResponderOk, Reaches;
    forall k, k' | k in w.history.acks && k' in w.history.acks && k.sessionId == k'.sessionId
      ensures k == k'
    {
      var r :| r in w.history.keys && r.sessionId == k.sessionId && r.sessionKey == k.sessionKey;
      var r' :| r' in w.history.keys && r'.sessionId == k'.sessionId && r'.sessionKey == k'.sessionKey;
    }
  }

  // ---- Replay -------------------------------------------------------------------------------------------------

  predicate Extends(ledger: Ledger, later: Ledger) {
    && ledger.signatures <= later.signatures
    && forall k :: k in ledger.wraps ==> k in later.wraps && later.wraps[k] == ledger.wraps[k]
  }

  lemma AcceptedLater(env: Env, ledger: Ledger, later: Ledger, m: Msg, peerSigning: PublicKey, own: PublicKey,
                      accepted: Accepted)
    requires Extends(ledger, later)
    requires VerifyKeyExchange(env, ledger, m, Name(ClientA), Name(ClientB), peerSigning, own) == Success(accepted)
    ensures VerifyKeyExchange(env, later, m, Name(ClientA), Name(ClientB), peerSigning, own) == Success(accepted)
  {
    hide VerifyKeyExchange, DataOf, WellFormed, Name, Base64.Decode;
    KeyExchangeAcceptedIff(env, ledger, m, Name(ClientA), Name(ClientB), peerSigning, own, accepted.sessionId,
                           accepted.sessionKey);
    KeyExchangeAcceptedIff(env, later, m, Name(ClientA), Name(ClientB), peerSigning, own, accepted.sessionId,
                           accepted.sessionKey);
  }

  // Responder agreement is not injective: after the peer left, the same HELLO and the same
  // KEY_EXCHANGE bring the responder back to the very same session, at any later time.
  lemma ResponderReplay(env: Env, ledger: Ledger, later: Ledger, identity: Identity, hello: Msg, m: Msg,
                        coins: Coins, again: Coins)
    requires hello.Hello? && m.KeyExchange? && Extends(ledger, later) && again.ackSignature.Some?
    requires var greeted := OnHello(env, ledger, Fresh(ClientB, identity), hello, coins).session;
             OnKeyExchange(env, ledger, greeted, m, coins).session.state == Established
    ensures var greeted := OnHello(env, ledger, Fresh(ClientB, identity), hello, coins).session;
            var established := OnKeyExchange(env, ledger, greeted, m, coins).session;
            var regreeted := OnHello(env, later, OnPeerLeft(established), hello, again).session;
            OnKeyExchange(env, later, regreeted, m, again).session == established
  {
    hide VerifyKeyExchange, ImportPublicKey, Name, Canonical.CanonicalizeHandshake, Base64.Encode, CreateKeyExchange;
    var greeted := OnHello(env, ledger, Fresh(ClientB, identity), hello, coins).session;
    var verdict := VerifyKeyExchange(env, ledger, m, Name(ClientA), Name(ClientB), greeted.peerSigning.value,
                                     identity.encryption);
    AcceptedLater(env, ledger, later, m, greeted.peerSigning.value, identity.encryption, verdict.value);
  }

  // What B accepted so far could be shown to it again: a HELLO with its peer's keys, and a KEY_EXCHANGE
  // with its session ID and key.
  ghost predicate HelloShown(env: Env, s: Session) {
    exists m :: IsHelloOf(env, s, m)
  }

  predicate IsHelloOf(env: Env, s: Session, m: Msg) {
    && m.Hello? && WellFormed(env, m) && m.sender == Name(ClientA)
    && ImportPublicKey(env, m.encryptionPublicKey) == s.peerEncryption &&
       ImportPublicKey(env, m.signingPublicKey) == s.peerSigning
  }

  ghost predicate KeyExchangeShown(env: Env, ledger: Ledger, s: Session) {
    exists m :: IsKeyOf(env, ledger, s, m)
  }

  predicate IsKeyOf(env: Env, ledger: Ledger, s: Session, m: Msg) {
    && m.KeyExchange? && s.peerSigning.Some? && s.sessionId.Some? && s.sessionKey.Some?
    && VerifyKeyExchange(env, ledger, m, Name(ClientA), Name(ClientB), s.peerSigning.value, s.identity.encryption)
       == Success(Accepted(s.sessionId.value, s.sessionKey.value))
  }

  ghost predicate Replayable(env: Env, ledger: Ledger, s: Session) {
    && (s.state != NoSession ==> HelloShown(env, s))
    && (s.state == Established ==> KeyExchangeShown(env, ledger, s))
  }

  lemma ReplayableLater(env: Env, ledger: Ledger, later: Ledger, s: Session)
    requires Replayable(env, ledger, s) && Extends(ledger, later)
    ensures Replayable(env, later, s)
  {
    hide VerifyKeyExchange, IsHelloOf, Name, Extends;
    if s.state == Established {
      var m :| IsKeyOf(env, ledger, s, m);
      AcceptedLater(env, ledger, later, m, s.peerSigning.value, s.identity.encryption,
                    Accepted(s.sessionId.value, s.sessionKey.value));
      assert IsKeyOf(env, later, s, m);
    }
  }

  // Lawful draws never take a meaning from a ciphertext.
  lemma LedgerExtends(env: Env, h: History, ledger: Ledger, s: Session, m: Msg, coins: Coins)
    requires LawfulCoins(env, h, ledger, s, m, coins)
    ensures Extends(ledger, OnMessage(env, ledger, s, m, coins).ledger)
  {
    hide VerifyKeyExchange, VerifyKeyExchangeAck, ImportPublicKey, Hex, Canonical.CanonicalizeHandshake, Name,
         Base64.Encode, OwnHello,
         FitsOaep;
  }

  lemma ComputingExtends(w: World, ledger: Ledger)
    requires CanCompute(w, ledger)
    ensures Extends(w.ledger, ledger)
  {
  }

  lemma ResponderStaysReplayable(env: Env, h: History, ledger: Ledger, s: Session, m: Msg, coins: Coins)
    requires Inv(s) && s.role == ClientB && WellFormed(env, m) && LawfulCoins(env, h, ledger, s, m, coins)
    requires Replayable(env, ledger, s)
    ensures var o := OnMessage(env, ledger, s, m, coins);
            Replayable(env, o.ledger, o.session)
  {
    hide VerifyKeyExchange, ImportPublicKey, Name, CreateKeyExchange, CreateKeyExchangeAck, WellFormed, LawfulCoins,
         Extends, KeyExchangeShown, HelloShown;
    var o := OnMessage(env, ledger, s, m, coins);
    LedgerExtends(env, h, ledger, s, m, coins);
    ReplayableLater(env, ledger, o.ledger, s);
    if m.Hello? && s.state == NoSession && m.sender == Name(ClientA) {
      IsAHello(env, o.session, m);
    } else if o.session.state == Established && s.state != Established {
      AcceptedIsReplayable(env, ledger, s, m, coins);
      SamePeerSameHello(env, s, o.session);
    } else if s.state != NoSession {
      SamePeerSameHello(env, s, o.session);
    }
  }

  lemma IsAHello(env: Env, s: Session, m: Msg)
    requires IsHelloOf(env, s, m)
    ensures HelloShown(env, s)
  {
  }

  lemma SamePeerSameHello(env: Env, s: Session, s': Session)
    requires HelloShown(env, s) && s'.peerEncryption == s.peerEncryption && s'.peerSigning == s.peerSigning
    ensures HelloShown(env, s')
  {
    hide WellFormed, ImportPublicKey, Name;
    var m :| IsHelloOf(env, s, m);
    assert IsHelloOf(env, s', m);
  }

  lemma AcceptedIsReplayable(env: Env, ledger: Ledger, s: Session, m: Msg, coins: Coins)
    requires s.role == ClientB && s.state != Established
    requires OnMessage(env, ledger, s, m, coins).session.state == Established
    requires Extends(ledger, OnMessage(env, ledger, s, m, coins).ledger)
    ensures var o := OnMessage(env, ledger, s, m, coins);
            KeyExchangeShown(env, o.ledger, o.session)
  {
    hide VerifyKeyExchange, ImportPublicKey, Name, CreateKeyExchange, CreateKeyExchangeAck, WellFormed, Extends;
    var o := OnMessage(env, ledger, s, m, coins);
    AcceptedLater(env, ledger, o.ledger, m, s.peerSigning.value, s.identity.encryption,
                  Accepted(o.session.sessionId.value, o.session.sessionKey.value));
    assert IsKeyOf(env, o.ledger, o.session, m);
  }

  lemma StepStaysReplayable(env: Env, w: World, step: Step)
    requires WorldInv(w) && Enabled(env, w, step) && Replayable(env, w.ledger, w.b)
    ensures Replayable(env, Next(env, w, step).ledger, Next(env, w, step).b)
  {
    hide Sound, InitiatorOk, BooksOk, Replayable, OnMessage, HandleMessage, WellFormed, ToObject, FromObject,
         LawfulCoins, FreshCoins,
         ImportPublicKey, CanCompute, Inv, Extends;
    match step
    case Notice(role, joined) => NoticeStaysReplayable(env, w, role, joined);
    case Compute(ledger) =>
      ComputingExtends(w, ledger);
      ReplayableLater(env, w.ledger, ledger, w.b);
    case Inject(role, j, coins) =>
      var s := Of(w, role);
      HandleMessageCases(env, w.ledger, s, j, coins);
      var o := HandleMessage(env, w.ledger, s, j, coins);
      if !(o.session == s && o.ledger == w.ledger && o.result.outgoing == [] && o.result.error.Some?) {
        var m: Msg :| WellFormed(env, m) && j == Obj(ToObject(m)) && o == OnMessage(env, w.ledger, s, m, coins);
        FromToObject(m);
        if role == ClientA {
          LedgerExtends(env, w.history, w.ledger, s, m, coins);
          ReplayableLater(env, w.ledger, o.ledger, w.b);
        } else {
          ResponderStaysReplayable(env, w.history, w.ledger, s, m, coins);
        }
      }
  }

  lemma NoticeStaysReplayable(env: Env, w: World, role: Role, joined: bool)
    requires Replayable(env, w.ledger, w.b)
    ensures Replayable(env, Next(env, w, Notice(role, joined)).ledger, Next(env, w, Notice(role, joined)).b)
  {
    hide OwnHello, VerifyKeyExchange, WellFormed, ImportPublicKey, Name;
    var b' := Next(env, w, Notice(role, joined)).b;
    if w.b.state != NoSession && b'.state != NoSession {
      SamePeerSameHello(env, w.b, b');
      if w.b.state == Established {
        var m :| IsKeyOf(env, w.ledger, w.b, m);
        assert IsKeyOf(env, w.ledger, b', m);
      }
    }
  }

  lemma {:induction false} RunStaysReplayable(env: Env, from: World, steps: seq<Step>, to: World)
    requires WorldInv(from) && Replayable(env, from.ledger, from.b) && Reaches(env, from, steps, to)
    ensures Replayable(env, to.ledger, to.b) && WorldInv(to)
    decreases |steps|
  {
    hide WorldInv, Next, Enabled, Replayable;
    if steps != [] {
      StepStaysReplayable(env, from, steps[0]);
      StepKeepsInv(env, from, steps[0]);
      RunStaysReplayable(env, Next(env, from, steps[0]), steps[1..], to);
    }
  }

  // From every reachable world in which B is ESTABLISHED: a notice that its peer left, a HELLO and a
  // KEY_EXCHANGE lead B back to the very same session.
  lemma ReplayRun(env: Env, start: World, steps: seq<Step>, w: World) returns (hello: Msg, ke: Msg, coins: Coins,
                                                                               w': World)
    requires Initial(start) && Reaches(env, start, steps, w) && w.b.state == Established
    ensures hello.Hello? && ke.KeyExchange?
    ensures Reaches(env, w, [Notice(ClientB, false), Inject(ClientB, Obj(ToObject(hello)), Coins(None, None)),
                             Inject(ClientB, Obj(ToObject(ke)), coins)], w')
    ensures w'.b == w.b && w'.a == w.a
  {
    InitialInv(start);
    hide WorldInv, Initial, VerifyKeyExchange, IsHelloOf, Name, ToObject, FromObject, Next, Enabled;
    assert Replayable(env, start.ledger, start.b) by { FreshIsReplayable(env, start); }
    RunStaysReplayable(env, start, steps, w);
    hello :| IsHelloOf(env, w.b, hello);
    ke :| IsKeyOf(env, w.ledger, w.b, ke);
    coins := Coins(None, Some(seq(ModulusBytes(env, w.b.identity.signing), _ => 0)));
    var w1 := Next(env, w, Notice(ClientB, false));
    var w2 := Next(env, w1, Inject(ClientB, Obj(ToObject(hello)), Coins(None, None)));
    w' := Next(env, w2, Inject(ClientB, Obj(ToObject(ke)), coins));
    ReplaySteps(env, w, hello, ke, coins);
    ThreeSteps(env, w, Notice(ClientB, false), Inject(ClientB, Obj(ToObject(hello)), Coins(None, None)),
               Inject(ClientB, Obj(ToObject(ke)), coins));
  }

  lemma FreshIsReplayable(env: Env, start: World)
    requires Initial(start)
    ensures Replayable(env, start.ledger, start.b)
  {
  }

  lemma ThreeSteps(env: Env, w: World, s1: Step, s2: Step, s3: Step)
    requires Enabled(env, w, s1) && Enabled(env, Next(env, w, s1), s2)
    requires Enabled(env, Next(env, Next(env, w, s1), s2), s3)
    ensures Reaches(env, w, [s1, s2, s3], Next(env, Next(env, Next(env, w, s1), s2), s3))
  {
    hide Enabled, Next;
    var w3 := Next(env, Next(env, Next(env, w, s1), s2), s3);
    assert Reaches(env, w3, [], w3);
    assert [s3][1..] == [] && [s2, s3][1..] == [s3] && [s1, s2, s3][1..] == [s2, s3];
    assert Reaches(env, Next(env, Next(env, w, s1), s2), [s3], w3);
    assert Reaches(env, Next(env, w, s1), [s2, s3], w3);
  }

  lemma ReplaySteps(env: Env, w: World, hello: Msg, ke: Msg, coins: Coins)
    requires WorldInv(w) && w.b.state == Established && IsHelloOf(env, w.b, hello) && IsKeyOf(env, w.ledger, w.b, ke)
    requires coins.key.None? && coins.ackSignature.Some?
    requires LawfulSignature(env, w.b.identity.signing, coins.ackSignature.value)
    ensures var s1, s2 := Notice(ClientB, false), Inject(ClientB, Obj(ToObject(hello)), Coins(None, None));
            var w1 := Next(env, w, s1);
            var w2 := Next(env, w1, s2);
            var s3 := Inject(ClientB, Obj(ToObject(ke)), coins);
            && Enabled(env, w, s1) && Enabled(env, w1, s2) && Enabled(env, w2, s3)
            && Next(env, w2, s3).b == w.b && Next(env, w2, s3).a == w.a
  {
    hide WorldInv, VerifyKeyExchange, Name, ToObject, FromObject, OnMessage, HandleMessage, WellFormed,
         ImportPublicKey, Inv;
    ResponderParts(w);
    KeyIsWellFormed(env, w.ledger, w.b, ke);
    HelloFields(hello);
    KeyKind(ke);
    FromToObject(hello);
    FromToObject(ke);
    var fresh' := OnPeerLeft(w.b);
    HandleWellFormed(env, w.ledger, fresh', hello, Coins(None, None));
    HelloAgain(env, w.ledger, w.b, hello);
    var greeted := OnMessage(env, w.ledger, fresh', hello, Coins(None, None)).session;
    HandleWellFormed(env, w.ledger, greeted, ke, coins);
    KeyAgain(env, w.ledger, w.b, greeted, ke, coins);
  }

  lemma ResponderParts(w: World)
    requires WorldInv(w) && w.b.state == Established
    ensures w.b.role == ClientB && w.b.helloSent && w.b.peerSigning == Some(w.a.identity.signing)
    ensures w.b.peerEncryption.Some?
    ensures w.b.sessionId.Some? && w.b.sessionKey.Some?
  {
    hide Sound, InitiatorOk, BooksOk;
  }

  lemma KeyIsWellFormed(env: Env, ledger: Ledger, s: Session, ke: Msg)
    requires IsKeyOf(env, ledger, s, ke)
    ensures WellFormed(env, ke) && ke.sessionId == s.sessionId.value
  {
    KeyExchangeAcceptedIff(env, ledger, ke, Name(ClientA), Name(ClientB), s.peerSigning.value, s.identity.encryption,
                           s.sessionId.value, s.sessionKey.value);
    hide VerifyKeyExchange, WellFormed, Name, DataOf, Base64.Decode;
  }

  lemma KeyKind(ke: Msg)
    requires ke.KeyExchange?
    ensures TextOf(ToObject(ke), "type") == "KEY_EXCHANGE"
  {
  }

  lemma HelloAgain(env: Env, ledger: Ledger, s: Session, hello: Msg)
    requires IsHelloOf(env, s, hello) && s.role == ClientB
    ensures OnMessage(env, ledger, OnPeerLeft(s), hello, Coins(None, None)).session ==
      OnPeerLeft(s).(state := HelloExchanged, helloSent := true, peerEncryption := s.peerEncryption,
                     peerSigning := s.peerSigning)
    ensures OnMessage(env, ledger, OnPeerLeft(s), hello, Coins(None, None)).ledger == ledger
  {
    hide WellFormed, ImportPublicKey, Name, CreateKeyExchange;
  }

  lemma KeyAgain(env: Env, ledger: Ledger, s: Session, greeted: Session, ke: Msg, coins: Coins)
    requires s.role == ClientB && s.state == Established && s.helloSent && IsKeyOf(env, ledger, s, ke)
    requires WellFormed(env, ke)
    requires ke.sessionId == s.sessionId.value && coins.ackSignature.Some?
    requires greeted == OnPeerLeft(s).(state := HelloExchanged, helloSent := true, peerEncryption := s.peerEncryption,
                                       peerSigning := s.peerSigning)
    ensures OnMessage(env, ledger, greeted, ke, coins).session == s
  {
    hide WellFormed, Name, VerifyKeyExchange, CreateKeyExchangeAck;
    AckCreatedIff(env, ledger, ke, s.identity.signing, coins.ackSignature);
  }
}
