// The programs as they run: the server, one client in each slot, and between them two streams of characters
// that arrive in pieces of any size (src/server.js, src/client.js). Framing, queueing, validation,
// sessions and routing are those of the other modules.
module WholeSystem {
  import opened Wrappers
  import opened Text
  import opened Crypto
  import opened Messages
  import opened Validation
  import opened Framing
  import opened JsonText
  import opened Handshake
  import opened Sessions
  import opened Evidence
  import Transport
  import ClientMachines
  import Net = HonestNetwork
  import Server = Relaying
  import Queue = ClientQueue

  // ---- State ------------------------------------------------------------------------------------

  // A client and its connection: up is what it wrote and the server has not read, down what the server
  // wrote and it has not read. The session counts once the client has one; its keys are those that key
  // generation will draw.
  datatype Program = Program(socket: nat, client: Queue.Client, session: Session, up: string, down: string)

  datatype System = System(
    server: Server.Server,
    programs: map<Role, Program>,
    ledger: Ledger,
    history: History,
    used: set<PublicKey>)     // every key any client ever generated

  const START := System(Server.INITIAL, map[], EMPTY_LEDGER, History({}, {}), {})

  // The parser of both programs, and the wording of the server's notices.
  datatype Site = Site(parse: Server.Parser, words: Server.Write -> string)

  // ---- What the server writes -------------------------------------------------------------------

  // createSystemMessage, createPeerEventMessage, createErrorMessage
  function NoticeEntries(kind: string, text: string): seq<Entry> {
    [Entry("type", Str(kind)), Entry("version", Num(PROTOCOL_VERSION)), Entry("text", Str(text))]
  }

  function EventEntries(event: string, peer: Role, text: string): seq<Entry> {
    NoticeEntries("SYSTEM", text) + [Entry("event", Str(event)), Entry("peer", Str(Name(peer)))]
  }

  // The properties of a packet that the server makes itself.
  function PacketEntries(site: Site, w: Server.Write): seq<Entry>
    requires !w.packet.Original?
  {
    match w.packet
    case ConnectedAs(_) => NoticeEntries("SYSTEM", site.words(w))
    case PeerJoined(role) => EventEntries("PEER_JOINED", role, site.words(w))
    case PeerLeft(role) => EventEntries("PEER_LEFT", role, site.words(w))
    case Chat(sender, text) => Server.ChatEntries(Name(sender), text)
    case Undelivered(_) => NoticeEntries("SYSTEM", site.words(w))
    case ErrorNotice(_) => NoticeEntries("ERROR", site.words(w))
  }

  // The line of a packet, without its newline.
  function LineOf(site: Site, w: Server.Write): string {
    if w.packet.Original? then w.packet.line else Stringify(PacketEntries(site, w))
  }

  // The lines among some writes that go to a socket.
  function LinesTo(site: Site, records: seq<Server.Record>, socket: nat): seq<string> {
    if records == [] then []
    else
      (if records[0].write.to == socket then [LineOf(site, records[0].write)] else [])
      + LinesTo(site, records[1..], socket)
  }

  function Post(site: Site, programs: map<Role, Program>, records: seq<Server.Record>): map<Role, Program> {
    map r | r in programs ::
      programs[r].(down := programs[r].down + Unsplit(LinesTo(site, records, programs[r].socket), ""))
  }

  // ---- What a client does -----------------------------------------------------------------------

  // The session, what it wrote, and the books, after some of the client's actions.
  datatype Effect = Effect(session: Session, written: seq<Msg>, ledger: Ledger, history: History)

  function Perform(env: Env, e: Effect, a: Queue.Action, coins: Coins): Effect {
    match a
    case PeerIsHere =>
      var (s, r) := OnPeerJoined(env, e.session);
      e.(session := s, written := e.written + r.outgoing)
    case PeerIsGone => e.(session := OnPeerLeft(e.session))
    case ToSession(o) =>
      var out := HandleMessage(env, e.ledger, e.session, Obj(o), coins);
      Effect(out.session, e.written + out.result.outgoing, out.ledger, Recorded(e.history, e.session, out, coins))
    case _ => e
  }

  function PerformAll(env: Env, e: Effect, actions: seq<Queue.Action>, coins: seq<Coins>): Effect
    requires |actions| <= |coins|
    decreases |actions|
  {
    if actions == [] then e else PerformAll(env, Perform(env, e, actions[0], coins[0]), actions[1..], coins[1..])
  }

  // Each action draws what the primitives may give it.
  predicate Lawful(env: Env, e: Effect, actions: seq<Queue.Action>, coins: seq<Coins>)
    decreases |actions|
  {
    && |actions| <= |coins|
    && (actions != [] ==>
        && (actions[0].ToSession? ==>
            LawfulCoins(env, e.history, e.ledger, e.session, FromObject(actions[0].message), coins[0]))
        && Lawful(env, Perform(env, e, actions[0], coins[0]), actions[1..], coins[1..]))
  }

  // ---- Steps ------------------------------------------------------------------------------------

  datatype Step =
    | Arrives(socket: nat, keys: Identity)
    | Leaves(role: Role)
    | Types(role: Role, line: string)                          // the user enters a line
    | ServerReads(role: Role, n: nat)                          // the next n characters reach the server
    | ClientReads(role: Role, n: nat, coins: seq<Coins>)       // and the client
    | KeysReady(role: Role, coins: seq<Coins>)                 // the timer of key generation

  function Started(sys: System, role: Role): Effect
    requires role in sys.programs
  {
    Effect(sys.programs[role].session, [], sys.ledger, sys.history)
  }

  // The client's part of a step.
  function Reading(env: Env, site: Site, p: Program, n: nat): (Queue.Client, seq<Queue.Action>)
    requires n <= |p.down|
  {
    Queue.OnArrive(env, site.parse, p.client, p.down[..n])
  }

  predicate Enabled(env: Env, site: Site, sys: System, step: Step) {
    match step
    case Arrives(socket, keys) =>
      && Server.Enabled(sys.server, Server.Connect(socket)) && Net.GoodIdentity(env, keys)
      && Net.KeysOf(keys) !! sys.used
    case Leaves(role) => role in sys.programs && Server.Enabled(sys.server, Server.Close(role))
    case Types(role, line) =>
      && role in sys.programs && (sys.programs[role].client.generating.Some? || sys.programs[role].client.hasSession)
      && ClientMachines.Sends(false, Some(Name(role)), line)
    case ServerReads(role, n) =>
      && role in sys.programs && n <= |sys.programs[role].up|
      && Server.Enabled(sys.server, Server.Data(role, sys.programs[role].up[..n]))
    case ClientReads(role, n, coins) =>
      && role in sys.programs && n <= |sys.programs[role].down| && !sys.programs[role].client.crashed
      && Lawful(env, Started(sys, role), Reading(env, site, sys.programs[role], n).1, coins)
    case KeysReady(role, coins) =>
      && role in sys.programs && sys.programs[role].client.generating.Some? && !sys.programs[role].client.crashed
      && Lawful(env, Started(sys, role), Queue.OnKeysReady(sys.programs[role].client).1, coins)
  }

  // The system after a client did something and is left with this much to read.
  function AfterActing(env: Env, sys: System, role: Role, client: Queue.Client, actions: seq<Queue.Action>,
                       coins: seq<Coins>, down: string): System
    requires role in sys.programs && |actions| <= |coins|
  {
    var e := PerformAll(env, Started(sys, role), actions, coins);
    var p := sys.programs[role];
    var sent := Transport.Wire(Transport.AllEntries(e.written));
    sys.(programs := sys.programs[role := Program(p.socket, client, e.session, p.up + sent, down)],
         ledger := e.ledger, history := e.history)
  }

  function AfterArrival(site: Site, sys: System, socket: nat, keys: Identity): System {
    var (server, records) := Server.OnConnect(sys.server, socket);
    match Server.FreeSlot(sys.server)
    case None => sys.(server := server)
    case Some(role) =>
      var programs := sys.programs[role := Program(socket, Queue.INITIAL, Fresh(role, keys), "", "")];
      sys.(server := server, programs := Post(site, programs, records), used := sys.used + Net.KeysOf(keys))
  }

  function Next(env: Env, site: Site, sys: System, step: Step): System
    requires Enabled(env, site, sys, step)
  {
    match step
    case Arrives(socket, keys) => AfterArrival(site, sys, socket, keys)
    case Leaves(role) =>
      var (server, records) := Server.Step(env, site.parse, sys.server, Server.Close(role));
      sys.(server := server, programs := Post(site, sys.programs - {role}, records))
    case Types(role, line) =>
      var p := sys.programs[role];
      var frame := Encode(Server.ChatEntries(Name(role), ClientMachines.Trim(line)));
      sys.(programs := sys.programs[role := p.(up := p.up + frame)])
    case ServerReads(role, n) =>
      var p := sys.programs[role];
      var (server, records) := Server.Step(env, site.parse, sys.server, Server.Data(role, p.up[..n]));
      sys.(server := server, programs := Post(site, sys.programs[role := p.(up := p.up[n..])], records))
    case ClientReads(role, n, coins) =>
      var p := sys.programs[role];
      var (client, actions) := Reading(env, site, p, n);
      AfterActing(env, sys, role, client, actions, coins, p.down[n..])
    case KeysReady(role, coins) =>
      var p := sys.programs[role];
      var (client, actions) := Queue.OnKeysReady(p.client);
      AfterActing(env, sys, role, client, actions, coins, p.down)
  }

  ghost predicate Reaches(env: Env, site: Site, from: System, steps: seq<Step>, to: System)
    decreases |steps|
  {
    if steps == [] then from == to
    else Enabled(env, site, from, steps[0]) && Reaches(env, site, Next(env, site, from, steps[0]), steps[1..], to)
  }

  // ---- What is assumed of a site ----------------------------------------------------------------

  predicate StartsWith(text: string, role: Role) {
    Name(role) <= text && |text| <= 500
  }

  // Notices about a slot start with its name, the greeting with its own words; the text of an error is open.
  predicate Announces(w: Server.Write, text: string) {
    match w.packet
    case ConnectedAs(role) => text == Queue.GREETING + Name(role)
    case PeerJoined(role) => StartsWith(text, role)
    case PeerLeft(role) => StartsWith(text, role)
    case Undelivered(role) => StartsWith(text, role)
    case _ => true
  }

  // JSON.parse undoes JSON.stringify on flat messages, and the server's notices are worded as they are.
  ghost predicate GoodSite(site: Site) {
    && ParsesFlat(site.parse)
    && (forall w: Server.Write :: Announces(w, site.words(w)))
  }

  // ---- The abstract state -----------------------------------------------------------------------

  // The message on a line.
  function ObjectOn(parse: Server.Parser, line: string): seq<Object> {
    if parse(line).Some? && parse(line).value.Obj? then [parse(line).value.fields] else []
  }

  // The messages among some lines.
  function ObjectsIn(parse: Server.Parser, lines: seq<string>): seq<Object> {
    if lines == [] then [] else ObjectOn(parse, lines[0]) + ObjectsIn(parse, lines[1..])
  }

  // What a message means to the handshake: a presence notice, a handshake message, or nothing.
  function ItemsOf(o: Object): seq<Net.Item> {
    match Queue.ActionFor(o, true)
    case PeerIsHere => [Net.PeerJoined]
    case PeerIsGone => [Net.PeerLeft]
    case ToSession(_) => [Net.Relayed(FromObject(o))]
    case _ => []
  }

  function ItemsIn(objects: seq<Object>): seq<Net.Item> {
    if objects == [] then [] else ItemsOf(objects[0]) + ItemsIn(objects[1..])
  }

  function MessagesOf(o: Object): seq<Msg> {
    if IsHandshakeType(TextOf(o, "type")) then [FromObject(o)] else []
  }

  function MessagesIn(objects: seq<Object>): seq<Msg> {
    if objects == [] then [] else MessagesOf(objects[0]) + MessagesIn(objects[1..])
  }

  function LinesIn(text: string): seq<string> {
    SplitLines(text).lines
  }

  // What a client has received or will, and not handled.
  function Pending(parse: Server.Parser, p: Program): seq<Object> {
    p.client.queue + ObjectsIn(parse, LinesIn(p.client.buffer + p.down))
  }

  function ClientOf(site: Site, buffer: string, p: Program): Net.Client {
    Net.Client(p.session, MessagesIn(ObjectsIn(site.parse, LinesIn(buffer + p.up))),
               ItemsIn(Pending(site.parse, p)))
  }

  function BufferOf(server: Server.Server, role: Role): string {
    if role in server.slots then server.slots[role].buffer else ""
  }

  // The state of HonestNetwork that a system stands for: each slot with the handshake lines it wrote that the
  // server has not processed, and the notices and handshake lines it has not handled.
  function Seen(site: Site, sys: System): Net.Net {
    Net.Net(map r | r in sys.programs :: ClientOf(site, BufferOf(sys.server, r), sys.programs[r]),
            sys.ledger, sys.history, sys.used)
  }
}
