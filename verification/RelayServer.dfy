// The relay server as it runs: a slot table and one line buffer per connection, changed by the
// socket handlers (src/server.js:39-178).
module RelayServers {
  import opened Wrappers
  import opened Text
  import opened Crypto
  import opened Messages
  import opened Framing
  import opened Sessions
  import Relaying
  import RelayRuns

  // The variables a connection's handlers share.
  class Client {
    const socket: nat
    const lines: LineBuffer
    var closing: bool

    constructor (socket: nat)
      ensures this.socket == socket && !closing
      ensures fresh(lines) && lines.buffer == "" && lines.maxFrameSize == MAX_FRAME_SIZE
    {
      this.socket := socket;
      lines := new LineBuffer();
      closing := false;
    }
  }

  // What was written, without the reasons.
  function Writes(records: seq<Relaying.Record>): seq<Relaying.Write> {
    seq(|records|, i requires 0 <= i < |records| => records[i].write)
  }

  lemma WritesConcat(xs: seq<Relaying.Record>, ys: seq<Relaying.Record>)
    ensures Writes(xs + ys) == Writes(xs) + Writes(ys)
  {
  }

  // The slot table of two optional connections.
  function Table(a: Option<Relaying.Connection>, b: Option<Relaying.Connection>): map<Role, Relaying.Connection> {
    (if a.Some? then map[ClientA := a.value] else map[]) + (if b.Some? then map[ClientB := b.value] else map[])
  }

  lemma TableLookup(a: Option<Relaying.Connection>, b: Option<Relaying.Connection>, role: Role)
    ensures role in Table(a, b) <==> (if role == ClientA then a else b).Some?
    ensures role in Table(a, b) ==> Some(Table(a, b)[role]) == if role == ClientA then a else b
  {
  }

  lemma TableUpdate(a: Option<Relaying.Connection>, b: Option<Relaying.Connection>, role: Role, c: Relaying.Connection)
    ensures Table(a, b)[role := c] == if role == ClientA then Table(Some(c), b) else Table(a, Some(c))
  {
  }

  lemma TableRemove(a: Option<Relaying.Connection>, b: Option<Relaying.Connection>, role: Role)
    ensures Table(a, b) - {role} == if role == ClientA then Table(None, b) else Table(a, None)
  {
  }

  class RelayServer {
    var clientA: Client?
    var clientB: Client?
    var written: seq<Relaying.Write>
    var down: bool
    ghost var seen: set<nat>

    constructor ()
      ensures Valid() && View() == Relaying.INITIAL && written == []
    {
      clientA, clientB := null, null;
      written := [];
      down := false;
      seen := {};
    }

    ghost predicate Valid()
      reads this`clientA, this`clientB
    {
      && (clientA != null ==> clientA.lines.maxFrameSize == MAX_FRAME_SIZE)
      && (clientB != null ==> clientB.lines.maxFrameSize == MAX_FRAME_SIZE)
      && (clientA != null && clientB != null ==> clientA != clientB && clientA.lines != clientB.lines)
    }

    static ghost function Seen(c: Client?): Option<Relaying.Connection>
      reads c, if c != null then {c.lines} else {}
    {
      if c == null then None else Some(Relaying.Connection(c.socket, c.lines.buffer, c.closing))
    }

    ghost function View(): Relaying.Server
      reads this`clientA, this`clientB, this`seen, this`down, clientA, clientB
      reads if clientA != null then {clientA.lines} else {}
      reads if clientB != null then {clientB.lines} else {}
    {
      Relaying.Server(Table(Seen(clientA), Seen(clientB)), seen, down)
    }

    function At(role: Role): Client?
      reads this`clientA, this`clientB
    {
      if role == ClientA then clientA else clientB
    }

    function FreeSlot(): Option<Role>
      reads this`clientA, this`clientB
    {
      if clientA == null then Some(ClientA) else if clientB == null then Some(ClientB) else None
    }

    function SocketOf(role: Role): Option<nat>
      reads this`clientA, this`clientB
    {
      if At(role) == null then None else Some(At(role).socket)
    }

    lemma Look(role: Role)
      ensures role in View().slots <==> At(role) != null
      ensures SocketOf(role) == Relaying.Occupant(View(), role)
      ensures At(role) != null ==> Some(View().slots[role]) == Seen(At(role))
    {
      TableLookup(Seen(clientA), Seen(clientB), role);
    }

    // A new connection takes the first free slot, or is turned away.
    method OnConnection(socket: nat)
      requires Valid() && Relaying.Enabled(View(), Relaying.Connect(socket))
      modifies this
      ensures Valid()
      ensures View() == Relaying.OnConnect(old(View()), socket).0
      ensures written == old(written) + Writes(Relaying.OnConnect(old(View()), socket).1)
      ensures forall r :: old(At(r)) != null ==> At(r) == old(At(r))
    {
      hide Table;
      Look(ClientA);
      Look(ClientB);
      match FreeSlot()
      case None =>
        seen := seen + {socket};
        written := written + [Relaying.Write(socket, Relaying.ErrorNotice(Relaying.ServerFull))];
      case Some(id) =>
        Admit(id, socket);
        Greet(id, socket);
    }

    method Admit(id: Role, socket: nat)
      requires Valid() && At(id) == null
      modifies this`clientA, this`clientB, this`seen
      ensures Valid() && At(Peer(id)) == old(At(Peer(id)))
      ensures View() == Relaying.Server(old(View()).slots[id := Relaying.Connection(socket, "", false)],
                                        old(View()).seen + {socket}, down)
    {
      hide Table;
      TableUpdate(Seen(clientA), Seen(clientB), id, Relaying.Connection(socket, "", false));
      var client := new Client(socket);
      if id == ClientA {
        clientA := client;
      } else {
        clientB := client;
      }
      seen := seen + {socket};
    }

    // Both sides learn that the pair is complete.
    method Greet(id: Role, socket: nat)
      modifies this`written
      ensures written == old(written) +
        Writes([Relaying.Told(socket, Relaying.ConnectedAs(id))] +
               match SocketOf(Peer(id))
               case None => []
               case Some(x) => [Relaying.Told(x, Relaying.PeerJoined(id)),
                                Relaying.Told(socket, Relaying.PeerJoined(Peer(id)))])
    {
      written := written + [Relaying.Write(socket, Relaying.ConnectedAs(id))];
      match SocketOf(Peer(id))
      case None =>
      case Some(peer) =>
        written := written + [Relaying.Write(peer, Relaying.PeerJoined(id))];
        written := written + [Relaying.Write(socket, Relaying.PeerJoined(Peer(id)))];
    }

    // Data from the client in a slot: nothing more is taken from a connection that is closing. An exception
    // out of the loop over the lines ends the server.
    method OnData(env: Env, parse: Relaying.Parser, role: Role, chunk: string)
      requires Valid() && At(role) != null && !down
      modifies this`written, this`down, At(role), At(role).lines
      ensures Valid()
      ensures role in old(View()).slots && View() == Relaying.OnData(env, parse, old(View()), role, chunk).0
      ensures written == old(written) + Writes(Relaying.OnData(env, parse, old(View()), role, chunk).1)
    {
      hide Table, Fed, Relaying.Answer, IsBlank, Relaying.AnyFatal, Relaying.IsFatal;
      Look(role);
      Look(Peer(role));
      var client := At(role);
      if client.closing {
        return;
      }
      var peer := SocketOf(Peer(role));
      ghost var a, b := Seen(clientA), Seen(clientB);
      var r := client.lines.Append(chunk);
      TableUpdate(a, b, role, Relaying.Connection(client.socket, client.lines.buffer, r.Failure?));
      match r
      case Failure(_) =>
        client.closing := true;
        written := written + [Relaying.Write(client.socket, Relaying.ErrorNotice(Relaying.FrameTooLarge))];
      case Success(lines) =>
        down := HandleLines(env, parse, role, client.socket, peer, lines);
    }

    // One answer for every line that is not blank, in order, until the validation of one throws.
    method HandleLines(env: Env, parse: Relaying.Parser, role: Role, socket: nat, peer: Option<nat>, lines: seq<string>)
      returns (threw: bool)
      modifies this`written
      ensures written == old(written) + Writes(Relaying.Handled(env, parse, role, socket, peer, lines))
      ensures threw == Relaying.AnyFatal(env, parse, lines)
    {
      hide Relaying.Answer, IsBlank, Relaying.AnyFatal, Relaying.IsFatal;
      ghost var all := Relaying.Handled(env, parse, role, socket, peer, lines);
      assert lines[0..] == lines;
      RelayRuns.NothingCalm(env, parse);
      for i := 0 to |lines|
        invariant old(written) + Writes(all)
               == written + Writes(Relaying.Handled(env, parse, role, socket, peer, lines[i..]))
        invariant Relaying.AnyFatal(env, parse, lines) == Relaying.AnyFatal(env, parse, lines[i..])
      {
        ghost var rest := Relaying.Handled(env, parse, role, socket, peer, lines[i + 1..]);
        assert lines[i..][1..] == lines[i + 1..];
        Relaying.NextFatal(env, parse, lines[i..]);
        RelayRuns.FatalMeans(env, parse, role, socket, peer, lines[i]);
        if IsBlank(lines[i]) {
          continue;
        }
        var answer := Route(env, parse, role, socket, peer, lines[i]);
        if answer.None? {
          return true;
        }
        WritesConcat([Relaying.Record(answer.value, Relaying.Handling(socket, role, peer, lines[i]))], rest);
        written := written + [answer.value];
      }
      return false;
    }

    // Decode, validate, check sender and recipient, stamp or pass on. None is the exception out of the
    // validation, which nothing catches.
    method Route(env: Env, parse: Relaying.Parser, role: Role, socket: nat, peer: Option<nat>, line: string)
      returns (w: Option<Relaying.Write>)
      ensures w == Relaying.Answer(env, parse, role, socket, peer, line)
    {
      hide Name, HandshakeVerdict, IsIdentity;
      var decoded := parse(line);
      if decoded.None? {
        return Some(Relaying.Write(socket, Relaying.ErrorNotice(Relaying.InvalidJson)));
      }
      var validation := ValidateMessage(env, decoded.value);
      if validation.Throws? {
        return None;
      }
      if validation.Invalid? {
        return Some(Relaying.Write(socket, Relaying.ErrorNotice(Relaying.InvalidStructure(validation.reason))));
      }
      var msg := decoded.value.fields;
      var packet := Relaying.Chat(role, TextOf(msg, "text"));
      if IsHandshakeType(TextOf(msg, "type")) {
        if TextOf(msg, "sender") != Name(role) {
          return Some(Relaying.Write(socket, Relaying.ErrorNotice(Relaying.SenderMismatch)));
        }
        if TextOf(msg, "type") != "HELLO" && TextOf(msg, "recipient") != Name(Peer(role)) {
          return Some(Relaying.Write(socket, Relaying.ErrorNotice(Relaying.RecipientMismatch)));
        }
        packet := Relaying.Original(line);
      } else if TextOf(msg, "type") != "CHAT" {
        return Some(Relaying.Write(socket, Relaying.ErrorNotice(Relaying.TypeNotAccepted)));
      }
      match peer
      case Some(to) => return Some(Relaying.Write(to, packet));
      case None => return Some(Relaying.Write(socket, Relaying.Undelivered(Peer(role))));
    }

    // A closed connection frees its slot and the peer, if any, is told.
    method OnClose(role: Role)
      requires Valid() && At(role) != null && !down
      modifies this
      ensures Valid() && At(role) == null && At(Peer(role)) == old(At(Peer(role)))
      ensures View() == Relaying.OnClose(old(View()), role).0
      ensures written == old(written) + Writes(Relaying.OnClose(old(View()), role).1)
    {
      hide Table;
      Look(Peer(role));
      TableRemove(Seen(clientA), Seen(clientB), role);
      if role == ClientA {
        clientA := null;
      } else {
        clientB := null;
      }
      match SocketOf(Peer(role))
      case None =>
      case Some(peer) =>
        written := written + [Relaying.Write(peer, Relaying.PeerLeft(role))];
    }
  }
}
