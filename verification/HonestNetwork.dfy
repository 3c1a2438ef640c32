// The whole system with an honest relay: clients come and go, the server hands lines across
// between its two slots in order, each client works through what it received
// (src/server.js:67-178, src/client.js:158-214, src/security/peer-session.js).
module HonestNetwork {
  import opened Wrappers
  import opened Text
  import opened Crypto
  import opened Messages
  import opened Validation
  import opened Handshake
  import opened Sessions
  import opened Evidence
  import Base64

  // ---- State ---------------------------------------------------------------------------------

  // What the server writes to a client, in the order the client reads it.
  datatype Item = PeerJoined | PeerLeft | Relayed(m: Msg)

  // A connected client: its session, the lines it wrote that the server has not processed, and
  // what the server wrote that it has not handled.
  datatype Client = Client(session: Session, outbox: seq<Msg>, inbox: seq<Item>)

  datatype Net = Net(
    slots: map<Role, Client>,
    ledger: Ledger,
    history: History,
    used: set<PublicKey>)     // every key any client ever generated

  const INITIAL := Net(map[], EMPTY_LEDGER, History({}, {}), {})

  // ---- Steps ------------------------------------------------------------------------------------

  datatype Step =
    | Connect(role: Role, identity: Identity)
    | Disconnect(role: Role)
    | Relay(role: Role)                    // the server processes the next line from this slot
    | Deliver(role: Role, coins: Coins)    // this slot's client handles its next item

  // freeSlot(): Client A first.
  function FreeSlot(net: Net): Option<Role> {
    if ClientA !in net.slots then Some(ClientA) else if ClientB !in net.slots then Some(ClientB) else None
  }

  // A generated identity: two different acceptable keys that survive export and import.
  predicate GoodIdentity(env: Env, id: Identity) {
    && id.encryption != id.signing
    && ParsePem(env, env.exportKey(id.encryption)) == Some(id.encryption)
    && ParsePem(env, env.exportKey(id.signing)) == Some(id.signing)
    && NoPrivateMark(env.exportKey(id.encryption)) && NoPrivateMark(env.exportKey(id.signing))
    && MIN_MODULUS_LENGTH <= env.modulusBits(id.encryption) <= 8192
    && MIN_MODULUS_LENGTH <= env.modulusBits(id.signing) <= 8192
  }

  function KeysOf(id: Identity): set<PublicKey> {
    {id.encryption, id.signing}
  }

  predicate Enabled(env: Env, net: Net, step: Step) {
    match step
    case Connect(role, id) => FreeSlot(net) == Some(role) && GoodIdentity(env, id) && KeysOf(id) !! net.used
    case Disconnect(role) => role in net.slots
    case Relay(role) => role in net.slots && net.slots[role].outbox != []
    case Deliver(role, coins) =>
      && role in net.slots && net.slots[role].inbox != []
      && var c := net.slots[role];
         c.inbox[0].Relayed? ==> LawfulCoins(env, net.history, net.ledger, c.session, c.inbox[0].m, coins)
  }

  function Notify(slots: map<Role, Client>, role: Role, item: Item): map<Role, Client> {
    if role in slots then slots[role := slots[role].(inbox := slots[role].inbox + [item])] else slots
  }

  // The server's checks on a handshake line from a slot.
  predicate RelayAccepts(env: Env, role: Role, m: Msg) {
    WellFormed(env, m) && m.sender == Name(role) && (m.Hello? || m.recipient == Name(Peer(role)))
  }

  function AfterConnect(net: Net, role: Role, id: Identity): Net {
    var peerHere := Peer(role) in net.slots;
    var told := Notify(net.slots, Peer(role), PeerJoined);
    net.(slots := told[role := Client(Fresh(role, id), [], if peerHere then [PeerJoined] else [])],
         used := net.used + KeysOf(id))
  }

  function AfterDisconnect(net: Net, role: Role): Net {
    net.(slots := Notify(net.slots - {role}, Peer(role), PeerLeft))
  }

  function AfterRelay(env: Env, net: Net, role: Role): Net
    requires role in net.slots && net.slots[role].outbox != []
  {
    var c := net.slots[role];
    var m := c.outbox[0];
    var taken := net.slots[role := c.(outbox := c.outbox[1..])];
    net.(slots := if RelayAccepts(env, role, m) then Notify(taken, Peer(role), Relayed(m)) else taken)
  }

  function AfterDeliver(env: Env, net: Net, role: Role, coins: Coins): Net
    requires role in net.slots && net.slots[role].inbox != []
  {
    var c := net.slots[role];
    var rest := c.inbox[1..];
    match c.inbox[0]
    case PeerJoined =>
      var (s, r) := OnPeerJoined(env, c.session);
      net.(slots := net.slots[role := Client(s, c.outbox + r.outgoing, rest)])
    case PeerLeft =>
      net.(slots := net.slots[role := Client(OnPeerLeft(c.session), c.outbox, rest)])
    case Relayed(m) =>
      var o := HandleMessage(env, net.ledger, c.session, Obj(ToObject(m)), coins);
      net.(slots := net.slots[role := Client(o.session, c.outbox + o.result.outgoing, rest)],
           ledger := o.ledger,
           history := Recorded(net.history, c.session, o, coins))
  }

  function Next(env: Env, net: Net, step: Step): Net
    requires Enabled(env, net, step)
  {
    match step
    case Connect(role, id) => AfterConnect(net, role, id)
    case Disconnect(role) => AfterDisconnect(net, role)
    case Relay(role) => AfterRelay(env, net, role)
    case Deliver(role, coins) => AfterDeliver(env, net, role, coins)
  }

  // The states along a run: each step enabled where it is taken.
  ghost predicate Reaches(env: Env, from: Net, steps: seq<Step>, to: Net)
    decreases |steps|
  {
    if steps == [] then from == to
    else Enabled(env, from, steps[0]) && Reaches(env, Next(env, from, steps[0]), steps[1..], to)
  }
}
