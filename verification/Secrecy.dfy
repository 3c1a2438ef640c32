// Secrecy of session keys against the network of Adversary: what can be deduced from everything
// the clients ever sent.
module Secrecy {
  import opened Wrappers
  import opened Text
  import opened Crypto
  import opened Messages
  import opened Validation
  import opened Handshake
  import opened Sessions
  import opened Evidence
  import opened Adversary
  import Base64
  import Canonical

  // ---- Terms and deduction -------------------------------------------------------------------------

  datatype Term =
    | Public(bytes: Bytes)                          // anything anyone can write down
    | Key(bytes: Bytes)                             // a session key
    | Wrap(recipient: PublicKey, body: Term)        // RSA-OAEP under a public key
    | Signed(signer: PublicKey, body: Term)         // a signature together with what it signs
    | Pair(left: Term, right: Term)

  // A way of deducing a term from what was heard, holding some private keys.
  datatype Deduction =
    | Hear(t: Term)
    | Make(bytes: Bytes)
    | First(d: Deduction)
    | Second(d: Deduction)
    | Unwrap(d: Deduction)
    | ReadSigned(d: Deduction)
    | MakePair(d: Deduction, e: Deduction)
    | MakeWrap(recipient: PublicKey, d: Deduction)
    | MakeSigned(signer: PublicKey, d: Deduction)

  // The term a deduction arrives at, if each of its steps is possible.
  ghost function Conclusion(d: Deduction, heard: iset<Term>, corrupt: iset<PublicKey>): Option<Term> {
    match d
    case Hear(t) => if t in heard then Some(t) else None
    case Make(bytes) => Some(Public(bytes))
    case First(d) =>
      (match Conclusion(d, heard, corrupt) case Some(Pair(l, _)) => Some(l) case _ => None)
    case Second(d) =>
      (match Conclusion(d, heard, corrupt) case Some(Pair(_, r)) => Some(r) case _ => None)
    case Unwrap(d) =>
      (match Conclusion(d, heard, corrupt)
       case Some(Wrap(k, body)) => if k in corrupt then Some(body) else None
       case _ => None)
    case ReadSigned(d) =>
      (match Conclusion(d, heard, corrupt) case Some(Signed(_, body)) => Some(body) case _ => None)
    case MakePair(d, e) =>
      (match (Conclusion(d, heard, corrupt), Conclusion(e, heard, corrupt))
       case (Some(l), Some(r)) => Some(Pair(l, r))
       case _ => None)
    case MakeWrap(k, d) =>
      (match Conclusion(d, heard, corrupt) case Some(t) => Some(Wrap(k, t)) case None => None)
    case MakeSigned(k, d) =>
      (match Conclusion(d, heard,
                        corrupt) case Some(t) => if k in corrupt then Some(Signed(k, t)) else None case None => None)
  }

  ghost predicate Deducible(t: Term, heard: iset<Term>, corrupt: iset<PublicKey>) {
    exists d :: Conclusion(d, heard, corrupt) == Some(t)
  }

  // What the adversary can do: use what it heard and anything it makes up, take pairs, signed data and wraps it
  // has the key for apart, and pair, wrap and, with its own keys, sign what it has.
  lemma AdversaryPowers(l: Term, r: Term, k: PublicKey, bytes: Bytes, heard: iset<Term>, corrupt: iset<PublicKey>)
    ensures l in heard ==> Deducible(l, heard, corrupt)
    ensures Deducible(Public(bytes), heard, corrupt)
    ensures Deducible(Pair(l, r), heard, corrupt) <==> Deducible(l, heard, corrupt) && Deducible(r, heard, corrupt)
    ensures Deducible(Wrap(k, l), heard, corrupt) && k in corrupt ==> Deducible(l, heard, corrupt)
    ensures Deducible(l, heard, corrupt) ==> Deducible(Wrap(k, l), heard, corrupt)
    ensures Deducible(Signed(k, l), heard, corrupt) ==> Deducible(l, heard, corrupt)
    ensures Deducible(l, heard, corrupt) && k in corrupt ==> Deducible(Signed(k, l), heard, corrupt)
  {
    assert l in heard ==> Conclusion(Hear(l), heard, corrupt) == Some(l);
    assert Conclusion(Make(bytes), heard, corrupt) == Some(Public(bytes));
    TakesApart(l, r, k, heard, corrupt);
    PutsTogether(l, r, k, heard, corrupt);
  }

  lemma TakesApart(l: Term, r: Term, k: PublicKey, heard: iset<Term>, corrupt: iset<PublicKey>)
    ensures Deducible(Pair(l, r), heard, corrupt) ==> Deducible(l, heard, corrupt) && Deducible(r, heard, corrupt)
    ensures Deducible(Wrap(k, l), heard, corrupt) && k in corrupt ==> Deducible(l, heard, corrupt)
    ensures Deducible(Signed(k, l), heard, corrupt) ==> Deducible(l, heard, corrupt)
  {
    if d :| Conclusion(d, heard, corrupt) == Some(Pair(l, r)) {
      assert Conclusion(First(d), heard, corrupt) == Some(l) && Conclusion(Second(d), heard, corrupt) == Some(r);
    }
    if d :| Conclusion(d, heard, corrupt) == Some(Wrap(k, l)) {
      assert k in corrupt ==> Conclusion(Unwrap(d), heard, corrupt) == Some(l);
    }
    if d :| Conclusion(d, heard, corrupt) == Some(Signed(k, l)) {
      assert Conclusion(ReadSigned(d), heard, corrupt) == Some(l);
    }
  }

  lemma PutsTogether(l: Term, r: Term, k: PublicKey, heard: iset<Term>, corrupt: iset<PublicKey>)
    ensures Deducible(l, heard, corrupt) && Deducible(r, heard, corrupt) ==> Deducible(Pair(l, r), heard, corrupt)
    ensures Deducible(l, heard, corrupt) ==> Deducible(Wrap(k, l), heard, corrupt)
    ensures Deducible(l, heard, corrupt) && k in corrupt ==> Deducible(Signed(k, l), heard, corrupt)
  {
    if d :| Conclusion(d, heard, corrupt) == Some(l) {
      assert Conclusion(MakeWrap(k, d), heard, corrupt) == Some(Wrap(k, l));
      assert k in corrupt ==> Conclusion(MakeSigned(k, d), heard, corrupt) == Some(Signed(k, l));
      if e :| Conclusion(e, heard, corrupt) == Some(r) {
        assert Conclusion(MakePair(d, e), heard, corrupt) == Some(Pair(l, r));
      }
    }
  }

  // The secrets occur in the term only under wraps that cannot be opened.
  ghost predicate Guards(t: Term, secrets: set<Bytes>, corrupt: iset<PublicKey>) {
    match t
    case Public(_) => true
    case Key(k) => k !in secrets
    case Wrap(k, body) => k in corrupt ==> Guards(body, secrets, corrupt)
    case Signed(_, body) => Guards(body, secrets, corrupt)
    case Pair(l, r) => Guards(l, secrets, corrupt) && Guards(r, secrets, corrupt)
  }

  // Deduction never gets past the guards.
  lemma {:induction false} DeductionRespectsGuards(d: Deduction, heard: iset<Term>, secrets: set<Bytes>,
                                                   corrupt: iset<PublicKey>)
    requires forall t :: t in heard ==> Guards(t, secrets, corrupt)
    ensures Conclusion(d, heard, corrupt).Some? ==> Guards(Conclusion(d, heard, corrupt).value, secrets, corrupt)
  {
    match d
    case Hear(_) =>
    case Make(_) =>
    case First(d') => DeductionRespectsGuards(d', heard, secrets, corrupt);
    case Second(d') => DeductionRespectsGuards(d', heard, secrets, corrupt);
    case Unwrap(d') => DeductionRespectsGuards(d', heard, secrets, corrupt);
    case ReadSigned(d') => DeductionRespectsGuards(d', heard, secrets, corrupt);
    case MakePair(d', e) =>
      DeductionRespectsGuards(d', heard, secrets, corrupt);
      DeductionRespectsGuards(e, heard, secrets, corrupt);
    case MakeWrap(_, d') => DeductionRespectsGuards(d', heard, secrets, corrupt);
    case MakeSigned(_, d') => DeductionRespectsGuards(d', heard, secrets, corrupt);
  }

  // ---- What is heard -----------------------------------------------------------------------------------

  // The bytes of a field as terms: a session key where they are one, a wrap for every recorded
  // encryption they are the ciphertext of, public bytes otherwise.
  predicate Reads(h: History, bytes: Bytes, t: Term) {
    match t
    case Public(b) => b == bytes && !(exists r :: r in h.keys && r.sessionKey == bytes)
    case Key(b) => b == bytes && exists r :: r in h.keys && r.sessionKey == bytes
    case Wrap(k, Key(b)) => exists r :: r in h.keys && r.ciphertext == bytes && r.recipient == k && r.sessionKey == b
    case _ => false
  }

  // Some field of the message shows the term.
  ghost predicate Shows(h: History, m: Msg, t: Term) {
    exists bytes :: bytes in FieldBytes(m) && Reads(h, bytes, t)
  }

  ghost predicate HeardIn(h: History, wire: set<Msg>, t: Term) {
    exists m :: m in wire && Shows(h, m, t)
  }

  // Every field of every message the clients ever sent, whichever the adversary let through.
  ghost function Overheard(w: World): iset<Term> {
    iset t | HeardIn(w.history, w.wire, t)
  }

  // The adversary holds no private key of the two clients.
  ghost predicate KeysUncompromised(w: World, corrupt: iset<PublicKey>) {
    w.a.identity.encryption !in corrupt && w.b.identity.encryption !in corrupt
  }

  // Keys that were wrapped for a recipient whose private key the adversary does not hold.
  function WrappedFor(h: History, recipient: PublicKey): set<Bytes> {
    set r | r in h.keys && r.recipient == recipient :: r.sessionKey
  }

  // ---- No key is ever on the wire in the clear -------------------------------------------------------------

  predicate ShowsNoKey(h: History, m: Msg) {
    forall r :: r in h.keys ==> r.sessionKey !in FieldBytes(m)
  }

  predicate NoKeyInClear(h: History, wire: set<Msg>) {
    forall m :: m in wire ==> ShowsNoKey(h, m)
  }

  // Sizes that tell keys and other fields apart.
  predicate PlainIdentity(env: Env, id: Identity) {
    && ByteLength(env.exportKey(id.encryption)) != SESSION_KEY_BYTES &&
       ByteLength(env.exportKey(id.signing)) != SESSION_KEY_BYTES
    && env.modulusBits(id.signing) >= MIN_MODULUS_LENGTH
  }

  predicate KeysUnique(h: History) {
    && (forall r :: r in h.keys ==> |r.sessionKey| == SESSION_KEY_BYTES)
    && (forall r, r' :: r in h.keys && r' in h.keys && r.sessionKey == r'.sessionKey ==> r == r')
    && (forall r, r' :: r in h.keys && r' in h.keys ==> r.sessionKey != Utf8(r'.sessionId))
  }

  predicate ClearInv(env: Env, w: World) {
    && NoKeyInClear(w.history, w.wire) && KeysUnique(w.history)
    && PlainIdentity(env, w.a.identity) && PlainIdentity(env, w.b.identity)
  }

  lemma NameBytes(r: Role)
    ensures |Utf8(Name(r))| == 8
  {
    AsciiByteLength(Name(r));
  }

  lemma OwnHelloBytes(env: Env, s: Session, bytes: Bytes)
    requires PlainIdentity(env, s.identity) && bytes in FieldBytes(OwnHello(env, s))
    ensures |bytes| != SESSION_KEY_BYTES
  {
    hide Utf8, Name;
    NameBytes(s.role);
  }

  // The base64 text of a primitive's output, and the bytes it decodes to, are longer than a key.
  lemma OutputBytes(env: Env, key: PublicKey, output: Bytes)
    requires env.modulusBits(key) >= MIN_MODULUS_LENGTH && |output| == ModulusBytes(env, key)
    ensures Base64.IsShaped(Base64.Encode(output)) && Base64.Decode(Base64.Encode(output)) == output
    ensures |output| > SESSION_KEY_BYTES && |Utf8(Base64.Encode(output))| > SESSION_KEY_BYTES
  {
    hide Base64.Encode, Base64.Decode, Utf8;
    Base64.DecodeEncode(output);
    Base64.EncodeLength(output);
    Utf8NonEmpty(Base64.Encode(output));
  }

  // A created KEY_EXCHANGE shows its key nowhere: each field has another length, or is the
  // session ID, which was drawn to differ.
  lemma CreatedBytes(env: Env, s: Session, recipient: PublicKey, c: KeyCoins, m: Msg, bytes: Bytes)
    requires env.modulusBits(s.identity.signing) >= MIN_MODULUS_LENGTH
    requires env.modulusBits(recipient) >= MIN_MODULUS_LENGTH
    requires |c.ciphertext| == ModulusBytes(env, recipient) && |c.signature| == ModulusBytes(env, s.identity.signing)
    requires m == KeyExchange(PROTOCOL_VERSION, Name(ClientA), Name(ClientB), Hex(c.idBytes),
                              Base64.Encode(c.ciphertext), Base64.Encode(c.signature))
    requires bytes in FieldBytes(m)
    ensures |bytes| != SESSION_KEY_BYTES || bytes == Utf8(Hex(c.idBytes))
  {
    hide Utf8, Name, Base64.Encode, Base64.Decode, Base64.IsShaped, Hex;
    NameBytes(ClientA);
    NameBytes(ClientB);
    OutputBytes(env, recipient, c.ciphertext);
    OutputBytes(env, s.identity.signing, c.signature);
  }

  // An ACK shows names, an ID and a signature.
  lemma AckBytes(env: Env, s: Session, id: string, signature: Bytes, m: Msg, bytes: Bytes)
    requires env.modulusBits(s.identity.signing) >= MIN_MODULUS_LENGTH
    requires |signature| == ModulusBytes(env, s.identity.signing)
    requires m == KeyExchangeAck(PROTOCOL_VERSION, Name(ClientB), Name(ClientA), id, Base64.Encode(signature))
    requires bytes in FieldBytes(m)
    ensures |bytes| != SESSION_KEY_BYTES || bytes == Utf8(id)
  {
    hide Utf8, Name, Base64.Encode, Base64.Decode, Base64.IsShaped;
    NameBytes(ClientA);
    NameBytes(ClientB);
    OutputBytes(env, s.identity.signing, signature);
  }

  lemma HelloShowsNoKey(env: Env, h: History, s: Session)
    requires PlainIdentity(env, s.identity) && KeysUnique(h)
    ensures ShowsNoKey(h, OwnHello(env, s))
  {
    hide PlainIdentity, OwnHello, FieldBytes;
    forall r | r in h.keys
      ensures r.sessionKey !in FieldBytes(OwnHello(env, s))
    {
      if r.sessionKey in FieldBytes(OwnHello(env, s)) {
        OwnHelloBytes(env, s, r.sessionKey);
      }
    }
  }

  // ---- Steps keep the wire clear ----------------------------------------------------------------------------------

  lemma HistoryGainsFreshKey(w: World, r: KeyRecord)
    requires KeysUnique(w.history) && |r.sessionKey| == SESSION_KEY_BYTES && r.sessionKey != Utf8(r.sessionId)
    requires forall q :: q in w.history.keys ==>
      q.sessionKey != r.sessionKey && q.sessionKey != Utf8(r.sessionId) && r.sessionKey != Utf8(q.sessionId)
    ensures KeysUnique(w.history.(keys := w.history.keys + {r}))
  {
    hide Utf8;
  }

  lemma OldWireStaysClear(w: World, r: KeyRecord)
    requires NoKeyInClear(w.history, w.wire) && forall m :: m in w.wire ==> r.sessionKey !in FieldBytes(m)
    ensures NoKeyInClear(w.history.(keys := w.history.keys + {r}), w.wire)
  {
    hide FieldBytes;
  }

  lemma FreshRecord(env: Env, w: World, s: Session, m: Msg, coins: Coins, recipient: PublicKey)
    requires coins.key.Some? && FreshCoins(w, coins) && LawfulCoins(env, w.history, w.ledger, s, m, coins)
    requires m.Hello? && ImportPublicKey(env, m.encryptionPublicKey) == Some(recipient)
    ensures var c := coins.key.value;
            && |c.sessionKey| == SESSION_KEY_BYTES && c.sessionKey != Utf8(Hex(c.idBytes))
            && |c.ciphertext| == ModulusBytes(env, recipient) && |c.signature| == ModulusBytes(env, s.identity.signing)
            && env.modulusBits(recipient) >= MIN_MODULUS_LENGTH
            && (forall q :: q in w.history.keys ==>
                q.sessionKey != c.sessionKey && q.sessionKey != Utf8(Hex(c.idBytes)) &&
                c.sessionKey != Utf8(q.sessionId))
            && (forall x :: x in w.wire ==> c.sessionKey !in FieldBytes(x))
  {
    hide Utf8, Hex, FieldBytes;
  }

  lemma CreationStaysClear(env: Env, w: World, m: Msg, coins: Coins)
    requires ClearInv(env, w) && w.a.role == ClientA
    requires FreshCoins(w, coins) && LawfulCoins(env, w.history, w.ledger, w.a, m, coins)
    requires OnMessage(env, w.ledger, w.a, m, coins).result.event == KeyExchangeSent
    ensures ClearInv(env, After(w, ClientA, OnMessage(env, w.ledger, w.a, m, coins), coins))
  {
    hide OnMessage, LawfulCoins, FreshCoins, Utf8, Hex, FieldBytes, ImportPublicKey, KeyData, Name, Base64.Encode,
         OwnHello, ModulusBytes, KeysUnique;
    var o := OnMessage(env, w.ledger, w.a, m, coins);
    var w' := After(w, ClientA, o, coins);
    KeyExchangeSentCreates(env, w.history, w.ledger, w.a, m, coins);
    SentWhenCreating(env, w.ledger, w.a, m, coins);
    IdentityKept(env, w.ledger, w.a, m, coins);
    var c, pk := coins.key.value, o.session.peerEncryption.value;
    var r := KeyRecord(w.a.identity.signing, pk, Hex(c.idBytes), c.ciphertext, c.sessionKey);
    FreshRecord(env, w, w.a, m, coins, pk);
    HistoryGainsFreshKey(w, r);
    OldWireStaysClear(w, r);
    HelloShowsNoKey(env, w'.history, w.a);
    var ke := o.result.outgoing[|o.result.outgoing| - 1];
    CreatedShowsNoKey(env, w'.history, w.a, pk, c, r, ke);
    forall x | x in w'.wire
      ensures ShowsNoKey(w'.history, x)
    {
      if x !in w.wire {
        assert x in o.result.outgoing;
      }
    }
  }

  lemma CreatedShowsNoKey(env: Env, h: History, s: Session, recipient: PublicKey, c: KeyCoins, r: KeyRecord, m: Msg)
    requires env.modulusBits(s.identity.signing) >= MIN_MODULUS_LENGTH
    requires env.modulusBits(recipient) >= MIN_MODULUS_LENGTH
    requires |c.ciphertext| == ModulusBytes(env, recipient) && |c.signature| == ModulusBytes(env, s.identity.signing)
    requires m == KeyExchange(PROTOCOL_VERSION, Name(ClientA), Name(ClientB), Hex(c.idBytes),
                              Base64.Encode(c.ciphertext), Base64.Encode(c.signature))
    requires KeysUnique(h) && r in h.keys && r.sessionId == Hex(c.idBytes)
    ensures ShowsNoKey(h, m)
  {
    hide Utf8, Hex, FieldBytes, Name, Base64.Encode, ModulusBytes;
    forall q | q in h.keys
      ensures q.sessionKey !in FieldBytes(m)
    {
      if q.sessionKey in FieldBytes(m) {
        CreatedBytes(env, s, recipient, c, m, q.sessionKey);
      }
    }
  }

  lemma AckShowsNoKey(env: Env, h: History, s: Session, r: KeyRecord, signature: Bytes, m: Msg)
    requires env.modulusBits(s.identity.signing) >= MIN_MODULUS_LENGTH
    requires |signature| == ModulusBytes(env, s.identity.signing)
    requires m == KeyExchangeAck(PROTOCOL_VERSION, Name(ClientB), Name(ClientA), r.sessionId, Base64.Encode(signature))
    requires KeysUnique(h) && r in h.keys
    ensures ShowsNoKey(h, m)
  {
    hide Utf8, FieldBytes, Name, Base64.Encode, ModulusBytes;
    forall q | q in h.keys
      ensures q.sessionKey !in FieldBytes(m)
    {
      if q.sessionKey in FieldBytes(m) {
        AckBytes(env, s, r.sessionId, signature, m, q.sessionKey);
      }
    }
  }

  lemma AcceptanceStaysClear(env: Env, w: World, m: Msg, coins: Coins)
    requires ClearInv(env, w) && WorldInv(w)
    requires LawfulCoins(env, w.history, w.ledger, w.b, m, coins)
    requires OnMessage(env, w.ledger, w.b, m, coins).result.event == SessionEstablished
    ensures ClearInv(env, After(w, ClientB, OnMessage(env, w.ledger, w.b, m, coins), coins))
  {
    hide OnMessage, Sound, InitiatorOk, BooksOk, Inv, Utf8, FieldBytes, ImportPublicKey, AckData, VerifyKeyExchange,
         Name, Base64.Encode,
         LawfulKeyCoins, KeysUnique;
    var o := OnMessage(env, w.ledger, w.b, m, coins);
    var w' := After(w, ClientB, o, coins);
    EstablishedBAccepts(env, w.ledger, w.b, m, coins);
    SentWhenAccepting(env, w.ledger, w.b, m, coins);
    IdentityKept(env, w.ledger, w.b, m, coins);
    var r := AcceptedKeyIsRecorded(env, w.history, w.ledger, SigningKeys(w), m, w.b.peerSigning.value,
                                   w.b.identity.encryption,
                                   m.sessionId, o.session.sessionKey.value);
    var ack := o.result.outgoing[0];
    AckShowsNoKey(env, w.history, w.b, r, coins.ackSignature.value, ack);
    SameKeysSameClear(w.history, w'.history, w.wire + {ack});
    assert Sent(o.result.outgoing) == {ack};
  }

  // Only the created keys matter.
  lemma SameKeysSameClear(h: History, h': History, wire: set<Msg>)
    requires KeysUnique(h) && NoKeyInClear(h, wire) && h'.keys == h.keys
    ensures KeysUnique(h') && NoKeyInClear(h', wire)
  {
    hide FieldBytes, Utf8;
    forall m | m in wire
      ensures ShowsNoKey(h', m)
    {
      assert ShowsNoKey(h, m);
    }
  }

  lemma QuietStaysClear(env: Env, w: World, role: Role, m: Msg, coins: Coins)
    requires ClearInv(env, w) && Inv(Of(w, role)) && WellFormed(env, m)
    requires var e := OnMessage(env, w.ledger, Of(w, role), m, coins).result.event;
             e in {NoEvent, PeerKeysReceived} || (e == SessionEstablished && role == ClientA && w.a.role == ClientA)
    ensures ClearInv(env, After(w, role, OnMessage(env, w.ledger, Of(w, role), m, coins), coins))
  {
    hide OnMessage, FieldBytes, KeysUnique, OwnHello, PlainIdentity, WellFormed, Inv;
    var s := Of(w, role);
    var o := OnMessage(env, w.ledger, s, m, coins);
    SentOtherwise(env, w.ledger, s, m, coins);
    IdentityKept(env, w.ledger, s, m, coins);
    HelloShowsNoKey(env, w.history, s);
    var w' := After(w, role, o, coins);
    assert w'.history == w.history;
    forall x | x in w'.wire
      ensures ShowsNoKey(w.history, x)
    {
    }
  }

  lemma MessageStaysClear(env: Env, w: World, role: Role, m: Msg, coins: Coins)
    requires ClearInv(env, w) && WorldInv(w) && WellFormed(env, m)
    requires FreshCoins(w, coins) && LawfulCoins(env, w.history, w.ledger, Of(w, role), m, coins)
    ensures ClearInv(env, After(w, role, OnMessage(env, w.ledger, Of(w, role), m, coins), coins))
  {
    hide OnMessage, ClearInv, Sound, BooksOk, WellFormed, LawfulCoins, FreshCoins, Inv;
    var e := OnMessage(env, w.ledger, Of(w, role), m, coins).result.event;
    if e == KeyExchangeSent {
      KeyExchangeSentCreates(env, w.history, w.ledger, Of(w, role), m, coins);
      CreationStaysClear(env, w, m, coins);
    } else if e == SessionEstablished && role == ClientB {
      AcceptanceStaysClear(env, w, m, coins);
    } else {
      QuietStaysClear(env, w, role, m, coins);
    }
  }

  lemma NoticeStaysClear(env: Env, w: World, role: Role, joined: bool)
    requires ClearInv(env, w)
    ensures ClearInv(env, Next(env, w, Notice(role, joined)))
  {
    hide FieldBytes, KeysUnique, OwnHello, PlainIdentity;
    HelloShowsNoKey(env, w.history, Of(w, role));
    var w' := Next(env, w, Notice(role, joined));
    forall x | x in w'.wire
      ensures ShowsNoKey(w.history, x)
    {
    }
  }

  lemma StepStaysClear(env: Env, w: World, step: Step)
    requires ClearInv(env, w) && WorldInv(w) && Enabled(env, w, step)
    ensures ClearInv(env, Next(env, w, step))
  {
    hide WorldInv, ClearInv, OnMessage, HandleMessage, WellFormed, ToObject, FromObject, LawfulCoins, FreshCoins,
         ImportPublicKey, CanCompute;
    match step
    case Notice(role, joined) => NoticeStaysClear(env, w, role, joined);
    case Compute(ledger) => ClearIgnoresLedger(env, w, ledger);
    case Inject(role, j, coins) =>
      var s := Of(w, role);
      HandleMessageCases(env, w.ledger, s, j, coins);
      var o := HandleMessage(env, w.ledger, s, j, coins);
      if o.session == s && o.ledger == w.ledger && o.result.outgoing == [] && o.result.error.Some? {
        RefusalRecordsNothing(env, w.ledger, s, j, coins, w.history);
        assert Sent([]) == {};
        assert Next(env, w, step) == w;
      } else {
        var m: Msg :| WellFormed(env, m) && j == Obj(ToObject(m)) && o == OnMessage(env, w.ledger, s, m, coins);
        FromToObject(m);
        MessageStaysClear(env, w, role, m, coins);
      }
  }

  lemma ClearIgnoresLedger(env: Env, w: World, ledger: Ledger)
    requires ClearInv(env, w)
    ensures ClearInv(env, w.(ledger := ledger))
  {
  }

  lemma {:induction false} RunStaysClear(env: Env, from: World, steps: seq<Step>, to: World)
    requires ClearInv(env, from) && WorldInv(from) && Adversary.Reaches(env, from, steps, to)
    ensures ClearInv(env, to)
    decreases |steps|
  {
    hide WorldInv, ClearInv, Next, Enabled;
    if steps != [] {
      StepStaysClear(env, from, steps[0]);
      StepKeepsInv(env, from, steps[0]);
      RunStaysClear(env, Next(env, from, steps[0]), steps[1..], to);
    }
  }

  // ---- Secrecy ---------------------------------------------------------------------------------------------------

  lemma HeardIsGuarded(env: Env, w: World, recipient: PublicKey, corrupt: iset<PublicKey>, t: Term)
    requires ClearInv(env, w) && recipient !in corrupt && t in Overheard(w)
    ensures Guards(t, WrappedFor(w.history, recipient), corrupt)
  {
    hide PlainIdentity, FieldBytes;
    var m :| m in w.wire && Shows(w.history, m, t);
    var bytes :| bytes in FieldBytes(m) && Reads(w.history, bytes, t);
    assert ShowsNoKey(w.history, m);
    match t
    case Public(_) =>
    case Key(_) =>
    case Wrap(k, Key(b)) =>
      var r :| r in w.history.keys && r.ciphertext == bytes && r.recipient == k && r.sessionKey == b;
      if b in WrappedFor(w.history, recipient) {
        var q :| q in w.history.keys && q.recipient == recipient && q.sessionKey == b;
        assert q == r;
      }
    case _ =>
  }

  // In every reachable state, a key wrapped for a recipient whose private key the adversary does not
  // hold cannot be deduced from everything the clients ever sent.
  lemma InvSecrecy(env: Env, w: World, r: KeyRecord, corrupt: iset<PublicKey>)
    requires ClearInv(env, w) && r in w.history.keys && r.recipient !in corrupt
    ensures !Deducible(Key(r.sessionKey), Overheard(w), corrupt)
  {
    hide ClearInv, Conclusion;
    var secrets := WrappedFor(w.history, r.recipient);
    assert r.sessionKey in secrets;
    forall t | t in Overheard(w)
      ensures Guards(t, secrets, corrupt)
    {
      HeardIsGuarded(env, w, r.recipient, corrupt, t);
    }
    forall d
      ensures Conclusion(d, Overheard(w), corrupt) != Some(Key(r.sessionKey))
    {
      DeductionRespectsGuards(d, Overheard(w), secrets, corrupt);
    }
  }

  // Every run from the start: the invariants of both kinds.
  lemma ReachableInv(env: Env, start: World, steps: seq<Step>, w: World)
    requires Initial(start) && PlainIdentity(env, start.a.identity) && PlainIdentity(env, start.b.identity)
    requires Adversary.Reaches(env, start, steps, w)
    ensures ClearInv(env, w) && WorldInv(w)
  {
    InitialInv(start);
    RunKeepsInv(env, start, steps, w);
    RunStaysClear(env, start, steps, w);
  }

  // Trusting only the signing keys: whoever is ESTABLISHED holds a key that cannot be deduced, even
  // if the network replaced encryption keys in HELLOs, as long as it holds neither client's
  // private encryption key.
  lemma EstablishedKeysAreSecret(env: Env, start: World, steps: seq<Step>, w: World, corrupt: iset<PublicKey>)
    requires Initial(start) && PlainIdentity(env, start.a.identity) && PlainIdentity(env, start.b.identity)
    requires Adversary.Reaches(env, start, steps, w) && KeysUncompromised(w, corrupt)
    ensures w.a.state == Established ==>
              w.a.sessionKey.Some? && !Deducible(Key(w.a.sessionKey.value), Overheard(w), corrupt)
    ensures w.b.state == Established ==>
              w.b.sessionKey.Some? && !Deducible(Key(w.b.sessionKey.value), Overheard(w), corrupt)
  {
    ReachableInv(env, start, steps, w);
    hide Initial, PlainIdentity, Adversary.Reaches, ClearInv, Deducible, Overheard;
    if w.a.state == Established {
      InitiatorAgreement(env, start, steps, w);
      var k := AckRecord(w.b.identity.signing, w.a.sessionId.value, w.a.sessionKey.value);
      var r :| r in w.history.keys && r.sessionKey == k.sessionKey && r.recipient == w.b.identity.encryption;
      InvSecrecy(env, w, r, corrupt);
    }
    if w.b.state == Established {
      ResponderAgreement(env, start, steps, w);
      var ct :| KeyRecord(w.a.identity.signing, w.b.identity.encryption, w.b.sessionId.value, ct,
                          w.b.sessionKey.value) in w.history.keys;
      InvSecrecy(env, w,
                 KeyRecord(w.a.identity.signing, w.b.identity.encryption, w.b.sessionId.value, ct,
                           w.b.sessionKey.value), corrupt);
    }
  }

  // The encryption keys in the HELLOs of a run are genuine too.
  ghost predicate EncryptionTrusted(env: Env, from: World, steps: seq<Step>)
    decreases |steps|
  {
    steps != [] && Enabled(env, from, steps[0]) ==>
      && (steps[0].Inject? ==> AuthenticEncryption(env, from, steps[0].role, steps[0].message))
      && EncryptionTrusted(env, Next(env, from, steps[0]), steps[1..])
  }

  predicate AllForB(w: World) {
    forall r :: r in w.history.keys ==> r.recipient == w.b.identity.encryption
  }

  // Only a key created for B is added to the history.
  lemma MessageKeepsAllForB(env: Env, w: World, role: Role, m: Msg, coins: Coins)
    requires w.a.role == ClientA && w.b.role == ClientB && AllForB(w)
    requires m.Hello? ==> ImportPublicKey(env, m.encryptionPublicKey) == Some(Of(w, Peer(role)).identity.encryption)
    ensures AllForB(After(w, role, OnMessage(env, w.ledger, Of(w, role), m, coins), coins))
  {
    hide OnMessage, ImportPublicKey, Hex, KeyData;
    var s := Of(w, role);
    IdentityKept(env, w.ledger, s, m, coins);
    if OnMessage(env, w.ledger, s, m, coins).result.event == KeyExchangeSent {
      KeyExchangeSentCreates(env, w.history, w.ledger, s, m, coins);
    }
  }

  lemma StepKeepsAllForB(env: Env, w: World, step: Step)
    requires w.a.role == ClientA && w.b.role == ClientB && AllForB(w) && Enabled(env, w, step)
    requires step.Inject? ==> AuthenticEncryption(env, w, step.role, step.message)
    ensures AllForB(Next(env, w, step))
  {
    hide AllForB, OnMessage, HandleMessage, WellFormed, ToObject, FromObject, LawfulCoins, FreshCoins,
         ImportPublicKey, CanCompute;
    match step
    case Notice(role, joined) => SameKeysAllForB(w, Next(env, w, step));
    case Compute(_) => SameKeysAllForB(w, Next(env, w, step));
    case Inject(role, j, coins) =>
      var s := Of(w, role);
      HandleMessageCases(env, w.ledger, s, j, coins);
      var o := HandleMessage(env, w.ledger, s, j, coins);
      if o.session == s && o.ledger == w.ledger && o.result.outgoing == [] && o.result.error.Some? {
        RefusalRecordsNothing(env, w.ledger, s, j, coins, w.history);
        SameKeysAllForB(w, Next(env, w, step));
      } else {
        var m: Msg :| WellFormed(env, m) && j == Obj(ToObject(m)) && o == OnMessage(env, w.ledger, s, m, coins);
        HelloFields(m);
        MessageKeepsAllForB(env, w, role, m, coins);
      }
  }

  lemma SameKeysAllForB(w: World, w': World)
    requires AllForB(w) && w'.history.keys == w.history.keys && w'.b.identity == w.b.identity
    ensures AllForB(w')
  {
  }

  lemma InvRoles(w: World)
    requires WorldInv(w)
    ensures w.a.role == ClientA && w.b.role == ClientB
  {
    hide Sound, BooksOk, Inv;
  }

  lemma {:induction false} RunKeepsAllForB(env: Env, from: World, steps: seq<Step>, to: World)
    requires WorldInv(from) && AllForB(from) && Adversary.Reaches(env, from, steps, to)
    requires EncryptionTrusted(env, from, steps)
    ensures AllForB(to)
    decreases |steps|
  {
    hide WorldInv, AllForB, Next, Enabled, AuthenticEncryption;
    if steps != [] {
      InvRoles(from);
      StepKeepsAllForB(env, from, steps[0]);
      StepKeepsInv(env, from, steps[0]);
      RunKeepsAllForB(env, Next(env, from, steps[0]), steps[1..], to);
    }
  }

  // With genuine HELLO keys of both kinds: no session key that createKeyExchange ever made, in any
  // epoch of any run, established or not, can be deduced from what was sent.
  lemma NoCreatedKeyIsDeducible(env: Env, start: World, steps: seq<Step>, w: World, corrupt: iset<PublicKey>,
                                r: KeyRecord)
    requires Initial(start) && PlainIdentity(env, start.a.identity) && PlainIdentity(env, start.b.identity)
    requires Adversary.Reaches(env, start, steps, w) && EncryptionTrusted(env, start, steps)
    requires KeysUncompromised(w, corrupt) && r in w.history.keys
    ensures !Deducible(Key(r.sessionKey), Overheard(w), corrupt)
  {
    InitialInv(start);
    ReachableInv(env, start, steps, w);
    hide PlainIdentity, Adversary.Reaches, ClearInv, Deducible, Overheard, EncryptionTrusted, WorldInv;
    RunKeepsAllForB(env, start, steps, w);
    InvSecrecy(env, w, r, corrupt);
  }
}
