// What the server writes never makes a client call a session it does not have
// (src/server.js:78-88, src/client.js:169-197).
module Startup {
  import opened Wrappers
  import opened Text
  import opened Crypto
  import opened Messages
  import opened Validation
  import opened Framing
  import opened Sessions
  import opened Relaying
  import opened RelayRuns
  import HonestNetwork
  import ClientQueue

  // Everything written to a socket, in order.
  function PacketsTo(records: seq<Record>, socket: nat): seq<Packet> {
    if records == [] then []
    else (if records[0].write.to == socket then [records[0].write.packet] else []) + PacketsTo(records[1..], socket)
  }

  lemma {:induction false} PacketsConcat(xs: seq<Record>, ys: seq<Record>, socket: nat)
    ensures PacketsTo(xs + ys, socket) == PacketsTo(xs, socket) + PacketsTo(ys, socket)
  {
    if xs == [] {
      assert xs + ys == ys;
    } else {
      assert (xs + ys)[1..] == xs[1..] + ys && (xs + ys)[0] == xs[0];
      PacketsConcat(xs[1..], ys, socket);
      NextPacket(xs, socket);
      NextPacket(xs + ys, socket);
      hide PacketsTo;
      var head := if xs[0].write.to == socket then [xs[0].write.packet] else [];
      var tail := PacketsTo(xs[1..], socket);
      assert head + (tail + PacketsTo(ys, socket)) == head + tail + PacketsTo(ys, socket);
    }
  }

  lemma NextPacket(records: seq<Record>, socket: nat)
    requires records != []
    ensures PacketsTo(records, socket) ==
              (if records[0].write.to == socket then [records[0].write.packet] else [])
              + PacketsTo(records[1..], socket)
  {
  }

  lemma {:induction false} PacketsAreRecords(records: seq<Record>, socket: nat, p: Packet)
    requires p in PacketsTo(records, socket)
    ensures exists r :: r in records && r.write == Write(socket, p)
  {
    var head := if records[0].write.to == socket then [records[0].write.packet] else [];
    if p in head {
      assert records[0].write == Write(socket, p);
    } else {
      PacketsAreRecords(records[1..], socket, p);
    }
  }

  // The identity first and only once.
  predicate Greeted(packets: seq<Packet>, role: Role) {
    packets != [] && packets[0] == ConnectedAs(role) && forall i :: 1 <= i < |packets| ==> !packets[i].ConnectedAs?
  }

  // A socket that ever held a slot was greeted; any other was told that the server is full, and no more.
  ghost predicate SocketOk(s: Server, log: seq<Record>, socket: nat) {
    || (exists role :: Greeted(PacketsTo(log, socket), role))
    || (HoldsNone(s, socket) && PacketsTo(log, socket) == [ErrorNotice(ServerFull)])
  }

  ghost predicate GreetedInv(s: Server, log: seq<Record>) {
    && ServerInv(s)
    && (forall r :: r in log ==> r.write.to in s.seen)
    && (forall socket :: socket in s.seen ==> SocketOk(s, log, socket))
  }

  lemma {:induction false} NewSocketHeardNothing(log: seq<Record>, socket: nat)
    requires forall r :: r in log ==> r.write.to != socket
    ensures PacketsTo(log, socket) == []
  {
    if log != [] {
      NewSocketHeardNothing(log[1..], socket);
    }
  }

  // Only a connecting socket is told a role.
  lemma GreetingsGoToNewcomers(env: Env, parse: Parser, s: Server, e: SocketEvent, r: Record)
    requires ServerInv(s) && Enabled(s, e) && r in Step(env, parse, s, e).1
    ensures r.write.packet.ConnectedAs? ==> e == Connect(r.write.to)
  {
    hide Handled, Answer, Fits, IsBlank, SplitLines;
    if e.Data? {
      StepRouting(env, parse, s, e, r);
      if r.cause.Handling? {
        AnswersAreNoGreetings(env, parse, r.cause.role, r.cause.socket, r.cause.peer, r.cause.line);
      } else {
        DataNotices(env, parse, s, e.role, e.chunk, r);
        RefusalsAreErrors(env, parse, s, e.role, e.chunk, r);
      }
    }
  }

  lemma AnswersAreNoGreetings(env: Env, parse: Parser, role: Role, self: nat, peer: Option<nat>, line: string)
    ensures var w := Answer(env, parse, role, self, peer, line);
            w.Some? ==> !w.value.packet.ConnectedAs?
  {
    hide ValidateMessage, Name;
  }

  lemma RefusalsAreErrors(env: Env, parse: Parser, s: Server, role: Role, chunk: string, r: Record)
    requires ServerInv(s) && role in s.slots && r in OnData(env, parse, s, role, chunk).1 && r.cause.Refusal?
    ensures r.write.packet.ErrorNotice?
  {
    hide Handled, Answer, Fits, IsBlank;
    HandledOk(env, parse, role, s.slots[role].socket, Occupant(s, Peer(role)),
              SplitLines(s.slots[role].buffer + chunk).lines);
  }

  lemma NewcomerGreeted(s: Server, socket: nat, role: Role)
    requires ServerInv(s) && socket !in s.seen && FreeSlot(s) == Some(role)
    ensures Greeted(PacketsTo(OnConnect(s, socket).1, socket), role)
  {
    hide Fits;
    var now := OnConnect(s, socket).1;
    if Peer(role) in s.slots {
      assert PacketsTo(now[1..], socket) == PacketsTo(now[1..][1..], socket);
      assert PacketsTo(now, socket) == [ConnectedAs(role), PeerJoined(Peer(role))];
    } else {
      assert PacketsTo(now, socket) == [ConnectedAs(role)];
    }
  }

  lemma {:induction false} NoGreetingAmong(records: seq<Record>, socket: nat)
    requires forall r :: r in records && r.write.to == socket ==> !r.write.packet.ConnectedAs?
    ensures forall p :: p in PacketsTo(records, socket) ==> !p.ConnectedAs?
  {
    if records != [] {
      NoGreetingAmong(records[1..], socket);
    }
  }

  lemma StaysGreeted(env: Env, parse: Parser, s: Server, e: SocketEvent, socket: nat, role: Role, log: seq<Record>)
    requires ServerInv(s) && Enabled(s, e) && Greeted(PacketsTo(log, socket), role) && e != Connect(socket)
    ensures Greeted(PacketsTo(log + Step(env, parse, s, e).1, socket), role)
  {
    hide Step, ServerInv, Enabled, PacketsTo;
    var now := Step(env, parse, s, e).1;
    PacketsConcat(log, now, socket);
    forall r | r in now
      ensures r.write.to == socket ==> !r.write.packet.ConnectedAs?
    {
      GreetingsGoToNewcomers(env, parse, s, e, r);
    }
    NoGreetingAmong(now, socket);
  }

  // Nobody is written to who neither holds a slot nor is just connecting.
  lemma WritesGoToHolders(env: Env, parse: Parser, s: Server, e: SocketEvent, r: Record)
    requires ServerInv(s) && Enabled(s, e) && r in Step(env, parse, s, e).1
    ensures e == Connect(r.write.to) || !HoldsNone(s, r.write.to)
  {
    hide Handled, Answer, Fits, IsBlank, SplitLines;
    if e.Data? {
      HandledOk(env, parse, e.role, s.slots[e.role].socket, Occupant(s, Peer(e.role)),
                SplitLines(s.slots[e.role].buffer + e.chunk).lines);
    }
  }

  lemma TurnedAwayStays(env: Env, parse: Parser, s: Server, e: SocketEvent, socket: nat, log: seq<Record>)
    requires ServerInv(s) && Enabled(s, e) && e != Connect(socket)
    requires HoldsNone(s, socket) && PacketsTo(log, socket) == [ErrorNotice(ServerFull)]
    ensures SocketOk(Step(env, parse, s, e).0, log + Step(env, parse, s, e).1, socket)
  {
    hide Step, ServerInv, Enabled, PacketsTo;
    var now := Step(env, parse, s, e).1;
    PacketsConcat(log, now, socket);
    forall r | r in now
      ensures r.write.to != socket
    {
      WritesGoToHolders(env, parse, s, e, r);
    }
    NewSocketHeardNothing(now, socket);
    StepHolds(env, parse, s, e, socket);
  }

  lemma NewcomerOk(s: Server, socket: nat, log: seq<Record>)
    requires ServerInv(s) && socket !in s.seen && forall r :: r in log ==> r.write.to in s.seen
    ensures SocketOk(OnConnect(s, socket).0, log + OnConnect(s, socket).1, socket)
  {
    hide PacketsTo, Greeted, Fits;
    var (s', now) := OnConnect(s, socket);
    NewSocketHeardNothing(log, socket);
    PacketsConcat(log, now, socket);
    assert [] + PacketsTo(now, socket) == PacketsTo(now, socket);
    match FreeSlot(s)
    case Some(role) =>
      NewcomerGreeted(s, socket, role);
      assert Greeted(PacketsTo(log + now, socket), role);
    case None =>
      OnePacket(now, socket);
  }

  lemma OnePacket(records: seq<Record>, socket: nat)
    requires |records| == 1 && records[0].write.to == socket
    ensures PacketsTo(records, socket) == [records[0].write.packet]
  {
    assert records[1..] == [];
  }

  lemma StepKeepsGreeted(env: Env, parse: Parser, s: Server, e: SocketEvent, log: seq<Record>)
    requires GreetedInv(s, log) && Enabled(s, e)
    ensures GreetedInv(Step(env, parse, s, e).0, log + Step(env, parse, s, e).1)
  {
    hide OnData, OnConnect, OnClose, Greeted, ServerInv, PacketsTo;
    Relaying.StepKeepsInv(env, parse, s, e);
    WritesToSeen(env, parse, s, e);
    var (s', now) := Step(env, parse, s, e);
    forall x | x in s'.seen
      ensures SocketOk(s', log + now, x)
    {
      StepHolds(env, parse, s, e, x);
      if e == Connect(x) {
        NewcomerOk(s, x, log);
      } else if role :| Greeted(PacketsTo(log, x), role) {
        StaysGreeted(env, parse, s, e, x, role, log);
        assert Greeted(PacketsTo(log + now, x), role);
      } else {
        assert SocketOk(s, log, x);
        TurnedAwayStays(env, parse, s, e, x, log);
      }
    }
  }

  lemma {:induction false} RunKeepsGreeted(env: Env, parse: Parser, s: Server, events: seq<SocketEvent>,
                                           log: seq<Record>)
    requires GreetedInv(s, log)
    ensures GreetedInv(Run(env, parse, s, events).0, log + Run(env, parse, s, events).1)
    decreases |events|
  {
    hide GreetedInv, Step, Enabled;
    if events == [] {
      assert log + [] == log;
    } else if Enabled(s, events[0]) {
      var (s1, now) := Step(env, parse, s, events[0]);
      StepKeepsGreeted(env, parse, s, events[0], log);
      RunKeepsGreeted(env, parse, s1, events[1..], log + now);
      assert log + now + Run(env, parse, s1, events[1..]).1 == log + (now + Run(env, parse, s1, events[1..]).1);
    } else {
      RunKeepsGreeted(env, parse, s, events[1..], log);
    }
  }

  // ---- What the client makes of it --------------------------------------------------------------------

  // The object is what a packet decodes to. Notices about a slot start with its name.
  predicate Carries(parse: Parser, p: Packet, o: Object) {
    match p
    case ConnectedAs(role) =>
      && TextOf(o, "type") == "SYSTEM" && TextOf(o, "text") == ClientQueue.GREETING + Name(role)
      && Plain(o) && "event" !in o
    case PeerJoined(role) =>
      && TextOf(o, "type") == "SYSTEM" && Name(role) <= TextOf(o, "text")
      && Plain(o) && TextOf(o, "event") == "PEER_JOINED"
    case PeerLeft(role) =>
      && TextOf(o, "type") == "SYSTEM" && Name(role) <= TextOf(o, "text")
      && Plain(o) && TextOf(o, "event") == "PEER_LEFT"
    case Undelivered(role) =>
      TextOf(o, "type") == "SYSTEM" && Name(role) <= TextOf(o, "text") && Plain(o) && "event" !in o
    case Original(line) => parse(line) == Some(Obj(o))
    case Chat(role, _) => TextOf(o, "type") == "CHAT" && Plain(o) && "sender" in o && o["sender"] == Str(Name(role))
    case ErrorNotice(_) => TextOf(o, "type") == "ERROR" && Plain(o)
  }

  // The server's own messages have version 1.
  predicate Plain(o: Object) {
    "version" in o && o["version"] == Num(PROTOCOL_VERSION)
  }

  // A line passed on is the JSON of a well-formed handshake message.
  ghost predicate OriginalIsHandshake(env: Env, parse: Parser, p: Packet) {
    p.Original? ==> exists m: Msg :: WellFormed(env, m) && parse(p.line) == Some(Obj(ToObject(m)))
  }

  lemma NamesAreNoGreetings(role: Role, text: string)
    requires Name(role) <= text
    ensures !(ClientQueue.GREETING <= text)
  {
    assert text[1] == Name(role)[1] == 'l' && ClientQueue.GREETING[1] == 'o';
  }

  // Only the greeting assigns an identity, and then one of the two slots'.
  lemma OnlyGreetingsAssign(env: Env, parse: Parser, p: Packet, o: Object)
    requires Carries(parse, p, o) && OriginalIsHandshake(env, parse, p)
    ensures ClientQueue.Assigns(o) <==> p.ConnectedAs?
    ensures p.ConnectedAs? ==> TextOf(o, "text")[|ClientQueue.GREETING|..] == Name(p.role)
    ensures !ClientQueue.Unshowable(o)
  {
    hide Name, WellFormed, ToObject, ClientQueue.GREETING;
    match p
    case Original(line) =>
      var m: Msg :| WellFormed(env, m) && parse(p.line) == Some(Obj(ToObject(m)));
      MessageParties(m);
    case PeerJoined(role) => NamesAreNoGreetings(role, TextOf(o, "text"));
    case PeerLeft(role) => NamesAreNoGreetings(role, TextOf(o, "text"));
    case Undelivered(role) => NamesAreNoGreetings(role, TextOf(o, "text"));
    case _ =>
  }

  lemma RelayedIsHandshake(env: Env, parse: Parser, r: Record)
    requires RecordOk(env, parse, r)
    ensures OriginalIsHandshake(env, parse, r.write.packet)
  {
    hide Answer, IsBlank, WellFormed;
    if r.write.packet.Original? {
      var c := r.cause;
      OriginalExactly(env, parse, c.role, c.socket, c.peer, c.line);
      var m: Msg :| parse(c.line) == Some(Obj(ToObject(m))) && HonestNetwork.RelayAccepts(env, c.role, m);
    }
  }

  // No packet makes the validation of its receiver throw.
  lemma PacketsDoNotThrow(env: Env, parse: Parser, p: Packet, o: Object)
    requires Carries(parse, p, o) && OriginalIsHandshake(env, parse, p)
    ensures !ValidateMessage(env, Obj(o)).Throws?
  {
    hide ValidateMessage, WellFormed, ToObject, ContainsPrivateKeyMaterial;
    ThrowsExactly(env, Obj(o));
    if p.Original? {
      var m: Msg :| WellFormed(env, m) && parse(p.line) == Some(Obj(ToObject(m)));
      WellFormedIsValid(env, m);
    }
  }

  lemma GreetedNeverCrashes(env: Env, parse: Parser, packets: seq<Packet>, messages: seq<Object>, role: Role)
    requires Greeted(packets, role) && |messages| <= |packets|
    requires forall i :: 0 <= i < |messages| ==>
               Carries(parse, packets[i], messages[i]) && OriginalIsHandshake(env, parse, packets[i])
    ensures !ClientQueue.Sequential(false, messages).crashed
  {
    hide Carries, OriginalIsHandshake, ClientQueue.FatalAt, ClientQueue.Sequential;
    ClientQueue.CrashesExactly(false, messages);
    forall i | 0 <= i < |messages|
      ensures !ClientQueue.FatalAt(messages, false, i)
    {
      NothingFatalAt(env, parse, packets, messages, role, i);
    }
  }

  lemma NothingFatalAt(env: Env, parse: Parser, packets: seq<Packet>, messages: seq<Object>, role: Role, i: nat)
    requires Greeted(packets, role) && i < |messages| <= |packets|
    requires Carries(parse, packets[i], messages[i]) && OriginalIsHandshake(env, parse, packets[i])
    requires Carries(parse, packets[0], messages[0]) && OriginalIsHandshake(env, parse, packets[0])
    ensures !ClientQueue.FatalAt(messages, false, i)
  {
    hide Carries, OriginalIsHandshake, ClientQueue.Assigns, ClientQueue.IsPresence, ClientQueue.Unshowable, Name,
         ClientQueue.GREETING, ClientQueue.TakesIdentity;
    IdentityTaken(role);
    OnlyGreetingsAssign(env, parse, packets[i], messages[i]);
    OnlyGreetingsAssign(env, parse, packets[0], messages[0]);
    PresenceIsNoGreeting(messages[i]);
  }

  lemma IdentityTaken(role: Role)
    ensures ClientQueue.TakesIdentity(Name(role))
  {
  }

  lemma PresenceIsNoGreeting(o: Object)
    ensures ClientQueue.IsPresence(o) ==> !ClientQueue.Assigns(o)
  {
  }

  lemma TurnedAwayNeverCrashes(parse: Parser, messages: seq<Object>)
    requires |messages| <= 1 && (|messages| == 1 ==> Carries(parse, ErrorNotice(ServerFull), messages[0]))
    ensures !ClientQueue.Sequential(false, messages).crashed
  {
    hide ClientQueue.Sequential;
    ClientQueue.CrashesExactly(false, messages);
  }

  // Over every run of the server and for every socket that ever connected, whether it holds a slot, gave
  // it up or was turned away: a client that works through what was written to it, or any initial part,
  // is never brought to call a session it does not have or to show what cannot be shown, and its
  // validation never throws.
  lemma ServerNeverCrashesAClient(env: Env, parse: Parser, events: seq<SocketEvent>, socket: nat, messages: seq<Object>)
    requires var packets := PacketsTo(Run(env, parse, INITIAL, events).1, socket);
             |messages| <= |packets| && forall i :: 0 <= i < |messages| ==> Carries(parse, packets[i], messages[i])
    ensures !ClientQueue.Sequential(false, messages).crashed
    ensures forall i :: 0 <= i < |messages| ==> !ValidateMessage(env, Obj(messages[i])).Throws?
  {
    hide Run, PacketsTo, Carries, Greeted, OriginalIsHandshake, RecordOk, ClientQueue.Sequential, ServerInv,
         ValidateMessage;
    var (s, records) := Run(env, parse, INITIAL, events);
    InitialGreeted();
    RunKeepsGreeted(env, parse, INITIAL, events, []);
    assert [] + records == records;
    var packets := PacketsTo(records, socket);
    forall i | 0 <= i < |messages|
      ensures OriginalIsHandshake(env, parse, packets[i])
    {
      PacketsAreRecords(records, socket, packets[i]);
      var r :| r in records && r.write == Write(socket, packets[i]);
      RunRouting(env, parse, INITIAL, events, r);
      RelayedIsHandshake(env, parse, r);
    }
    forall i | 0 <= i < |messages|
      ensures !ValidateMessage(env, Obj(messages[i])).Throws?
    {
      PacketsDoNotThrow(env, parse, packets[i], messages[i]);
    }
    if socket !in s.seen {
      NewSocketHeardNothing(records, socket);
      TurnedAwayNeverCrashes(parse, messages);
    } else if role :| Greeted(packets, role) {
      GreetedNeverCrashes(env, parse, packets, messages, role);
    } else {
      assert SocketOk(s, records, socket);
      TurnedAwayNeverCrashes(parse, messages);
    }
  }

  lemma InitialGreeted()
    ensures GreetedInv(INITIAL, []) && ServerInv(INITIAL)
  {
  }
}
