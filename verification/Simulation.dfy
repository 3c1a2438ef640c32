// Every run of the programs is a run of HonestNetwork: streams, framing, queues and routing neither lose
// nor reorder nor invent a line of the handshake, and chat does not disturb it.
module Simulation {
  import opened Wrappers
  import opened Text
  import opened Crypto
  import opened Messages
  import opened Validation
  import opened Framing
  import opened JsonText
  import opened Sessions
  import opened Evidence
  import opened WholeSystem
  import opened Wires
  import Convergence
  import Provenance
  import HonestAgreement
  import ClientMachines
  import Transport
  import Net = HonestNetwork
  import Server = Relaying
  import Queue = ClientQueue

  // ---- Runs of the abstract system --------------------------------------------------------------

  // Relaying and delivering, with primitives that do not throw.
  predicate Quiet(steps: seq<Net.Step>) {
    Convergence.AllQuiet(steps)
  }

  lemma {:induction false} RunsCompose(env: Env, from: Net.Net, xs: seq<Net.Step>, mid: Net.Net, ys: seq<Net.Step>,
                                       to: Net.Net)
    requires Net.Reaches(env, from, xs, mid) && Net.Reaches(env, mid, ys, to)
    ensures Net.Reaches(env, from, xs + ys, to)
    decreases |xs|
  {
    hide Net.Enabled, Net.Next;
    if xs == [] {
      assert xs + ys == ys;
    } else {
      assert (xs + ys)[1..] == xs[1..] + ys && (xs + ys)[0] == xs[0];
      RunsCompose(env, Net.Next(env, from, xs[0]), xs[1..], mid, ys, to);
    }
  }

  lemma OneStep(env: Env, net: Net.Net, step: Net.Step)
    requires Net.Enabled(env, net, step)
    ensures Net.Reaches(env, net, [step], Net.Next(env, net, step))
  {
    hide Net.Enabled, Net.Next;
    assert [step][1..] == [];
    assert Net.Reaches(env, Net.Next(env, net, step), [], Net.Next(env, net, step));
  }

  lemma NoStep(env: Env, net: Net.Net)
    ensures Net.Reaches(env, net, [], net)
  {
  }

  // Whatever a client wrote is taken by the server.
  lemma OutboxAccepted(env: Env, steps: seq<Net.Step>, net: Net.Net, role: Role)
    requires Net.Reaches(env, Net.INITIAL, steps, net) && role in net.slots
    ensures forall m :: m in net.slots[role].outbox ==> Net.RelayAccepts(env, role, m)
  {
    hide Net.Reaches, Net.RelayAccepts, HonestAgreement.NetInv, Provenance.InboxTraced, Provenance.SendersOk,
         Provenance.PeerTraced, Provenance.AckedForOwn;
    var authors := Provenance.Reachable(env, steps, net);
    assert Provenance.SlotTraced(env, net, authors, ClientA) && Provenance.SlotTraced(env, net, authors, ClientB);
  }

  // ---- Relaying lines ---------------------------------------------------------------------------

  function Relays(ms: seq<Msg>): seq<Net.Item> {
    seq(|ms|, i requires 0 <= i < |ms| => Net.Relayed(ms[i]))
  }

  // The state after the server processed all of a slot's lines but these.
  function Relaid(net: Net.Net, role: Role, out: seq<Msg>, items: seq<Net.Item>): Net.Net
    requires role in net.slots
  {
    var taken := net.slots[role := net.slots[role].(outbox := out)];
    var peer := Peer(role);
    net.(slots := if peer in net.slots then taken[peer := net.slots[peer].(inbox := net.slots[peer].inbox + items)]
                  else taken)
  }

  lemma {:induction false} RelaysAll(env: Env, net: Net.Net, role: Role, ms: seq<Msg>, out: seq<Msg>)
    returns (steps: seq<Net.Step>)
    requires role in net.slots && net.slots[role].outbox == ms + out
    requires forall m :: m in ms ==> Net.RelayAccepts(env, role, m)
    ensures Net.Reaches(env, net, steps, Relaid(net, role, out, Relays(ms))) && Quiet(steps)
    decreases |ms|
  {
    hide Net.RelayAccepts, Net.Reaches;
    if ms == [] {
      steps := [];
      assert ms + out == out;
      assert Relays(ms) == [];
      assert Relaid(net, role, out, []) == net by { NothingRelaid(net, role, out); }
      NoStep(env, net);
    } else {
      var step := Net.Relay(role);
      assert (ms + out)[1..] == ms[1..] + out;
      var next := Net.Next(env, net, step);
      assert next == Relaid(net, role, ms[1..] + out, [Net.Relayed(ms[0])]);
      var rest := RelaysAll(env, next, role, ms[1..], out);
      assert Relays(ms) == [Net.Relayed(ms[0])] + Relays(ms[1..]);
      RelaidTwice(net, role, ms[1..] + out, [Net.Relayed(ms[0])], out, Relays(ms[1..]));
      OneStep(env, net, step);
      RunsCompose(env, net, [step], next, rest, Relaid(net, role, out, Relays(ms)));
      steps := [step] + rest;
    }
  }

  lemma NothingRelaid(net: Net.Net, role: Role, out: seq<Msg>)
    requires role in net.slots && net.slots[role].outbox == out
    ensures Relaid(net, role, out, []) == net
  {
    if Peer(role) in net.slots {
      assert net.slots[Peer(role)].inbox + [] == net.slots[Peer(role)].inbox;
    }
  }

  lemma RelaidTwice(net: Net.Net, role: Role, out: seq<Msg>, items: seq<Net.Item>, out': seq<Msg>,
                    items': seq<Net.Item>)
    requires role in net.slots
    ensures Relaid(Relaid(net, role, out, items), role, out', items') == Relaid(net, role, out', items + items')
  {
    if Peer(role) in net.slots {
      var inbox := net.slots[Peer(role)].inbox;
      assert inbox + items + items' == inbox + (items + items');
    }
  }

  // The server answers a line of a client by handing the same line to the peer, or by a notice to the client.
  lemma AnswerToLine(env: Env, site: Site, role: Role, self: nat, peer: Option<nat>, line: string)
    returns (packet: Server.Packet)
    requires GoodSite(site) && UpLine(env, role, line)
    ensures Server.Answer(env, site.parse, role, self, peer, line) == Some(Server.Forward(role, self, peer, packet))
    ensures forall x :: LineOf(site, Server.Write(x, packet)) == line
  {
    hide WellFormed, Stringify, Transport.MembersOf, Net.RelayAccepts, ValidateMessage, IsBlank, GoodSite, ToObject,
         Server.ChatEntries, Name, Fits, ChatObject, FromObject;
    if m :| HandshakeLine(env, role, line, m) {
      HandshakeText(env, site, role, m);
      AcceptedIsWellFormed(env, role, m);
      MessageIsHarmless(env, m);
      Server.MessageParties(m);
      AcceptedNames(env, role, m);
      packet := Server.Original(line);
    } else {
      var text :| ChatLine(role, line, text);
      ChatText(site, role, text);
      ChatIsHarmless(env, role, text);
      ChatNames(role, text);
      packet := Server.Chat(role, text);
    }
  }

  lemma AcceptedNames(env: Env, role: Role, m: Msg)
    requires Net.RelayAccepts(env, role, m)
    ensures m.sender == Name(role) && (!m.Hello? ==> m.recipient == Name(Peer(role)))
  {
    hide WellFormed, Name;
  }

  lemma ChatNames(role: Role, text: string)
    ensures TextOf(ChatObject(role, text), "type") == "CHAT" && TextOf(ChatObject(role, text), "text") == text
    ensures !IsHandshakeType("CHAT")
  {
    hide Name;
  }

  // A stretch of a client's lines: none is fatal; with a peer present all of them go to it as they are and
  // nothing comes back, without one each is answered by a notice.
  lemma {:induction false} LinesAnswered(env: Env, site: Site, role: Role, self: nat, peer: Option<nat>,
                                         lines: seq<string>)
    requires GoodSite(site) && peer != Some(self)
    requires forall l :: l in lines ==> UpLine(env, role, l)
    ensures !Server.AnyFatal(env, site.parse, lines)
    ensures var records := Server.Handled(env, site.parse, role, self, peer, lines);
            && (peer.Some? ==> LinesTo(site, records, peer.value) == lines && LinesTo(site, records, self) == [])
            && (forall l :: l in LinesTo(site, records, self) ==> DownLine(env, site, l))
            && ItemsIn(ObjectsIn(site.parse, LinesTo(site, records, self))) == []
    decreases |lines|
  {
    hide UpLine, Server.Answer, GoodSite, DownLine, LineOf, ItemsIn, ObjectsIn, Server.IsFatal, Server.AnyFatal,
         Server.Handled, LinesTo;
    if lines == [] {
      NoAnswers(env, site, role, self, peer);
    } else {
      var packet := AnswerToLine(env, site, role, self, peer, lines[0]);
      var w := Server.Forward(role, self, peer, packet);
      Server.RestGoesBack(env, site.parse, role, self, peer, lines[0]);
      Server.NextFatal(env, site.parse, lines);
      LinesAnswered(env, site, role, self, peer, lines[1..]);
      var later := Server.Handled(env, site.parse, role, self, peer, lines[1..]);
      var rest := LinesTo(site, later, self);
      NextHandled(env, site, role, self, peer, lines, w);
      LinesToOne(site, w, Server.Handling(self, role, peer, lines[0]), later, self);
      assert lines == [lines[0]] + lines[1..];
      if peer.None? {
        NotDelivered(env, site, w, Peer(role));
        ObjectsConcat(site.parse, [LineOf(site, w)], rest);
        ItemsConcat(ObjectsIn(site.parse, [LineOf(site, w)]), ObjectsIn(site.parse, rest));
      } else {
        LinesToOne(site, w, Server.Handling(self, role, peer, lines[0]), later, peer.value);
        assert [] + rest == rest;
      }
    }
  }

  lemma NoAnswers(env: Env, site: Site, role: Role, self: nat, peer: Option<nat>)
    ensures Server.Handled(env, site.parse, role, self, peer, []) == [] && !Server.AnyFatal(env, site.parse, [])
    ensures forall socket :: LinesTo(site, [], socket) == []
    ensures ItemsIn(ObjectsIn(site.parse, [])) == []
  {
  }

  lemma NextHandled(env: Env, site: Site, role: Role, self: nat, peer: Option<nat>, lines: seq<string>, w: Server.Write)
    requires lines != [] && UpLine(env, role, lines[0])
    requires Server.Answer(env, site.parse, role, self, peer, lines[0]) == Some(w)
    ensures Server.Handled(env, site.parse, role, self, peer, lines) ==
      [Server.Record(w, Server.Handling(self, role, peer, lines[0]))]
      + Server.Handled(env, site.parse, role, self, peer, lines[1..])
    ensures !IsBlank(lines[0])
  {
    hide UpLine, Server.Answer;
    LineNotBlank(env, role, lines[0]);
  }

  lemma LineNotBlank(env: Env, role: Role, line: string)
    requires UpLine(env, role, line)
    ensures !IsBlank(line)
  {
    hide IsBlank;
  }

  lemma NotDelivered(env: Env, site: Site, w: Server.Write, role: Role)
    requires GoodSite(site) && w.packet == Server.Undelivered(role)
    ensures DownLine(env, site, LineOf(site, w)) && ItemsIn(ObjectsIn(site.parse, [LineOf(site, w)])) == []
  {
    hide Stringify, NoticeEntries, DownLine, ItemsOf, StartsWith;
    assert Announces(w, site.words(w));
    UndeliveredLine(env, site, role, site.words(w));
    CarriedObject(env, site, LineOf(site, w));
    OneItem(site.parse(LineOf(site, w)).value.fields);
  }

  lemma CarriedObject(env: Env, site: Site, line: string)
    requires DownLine(env, site, line)
    ensures site.parse(line).Some? && site.parse(line).value.Obj?
    ensures ObjectsIn(site.parse, [line]) == [site.parse(line).value.fields]
    ensures Harmless(env, site.parse(line).value.fields) && IsFrame(line)
  {
    hide ValidateMessage, IsBlank, Fits;
    OneObject(site.parse, line, site.parse(line).value.fields);
  }

  // For its receiver a client's line is the handshake message it holds, or nothing.
  lemma {:induction false} LinesMean(env: Env, site: Site, role: Role, lines: seq<string>)
    requires GoodSite(site) && forall l :: l in lines ==> UpLine(env, role, l)
    ensures var objects := ObjectsIn(site.parse, lines);
            && ItemsIn(objects) == Relays(MessagesIn(objects))
            && forall m :: m in MessagesIn(objects) ==> Net.RelayAccepts(env, role, m)
  {
    hide UpLine, GoodSite, ItemsOf, MessagesOf, Net.RelayAccepts;
    if lines != [] {
      var o := LineMeans(env, site, role, lines[0]);
      LinesMean(env, site, role, lines[1..]);
      assert ObjectsIn(site.parse, lines) == [o] + ObjectsIn(site.parse, lines[1..]);
      ItemsConcat([o], ObjectsIn(site.parse, lines[1..]));
      MessagesConcat([o], ObjectsIn(site.parse, lines[1..]));
      OneItem(o);
      OneMessage(o);
      assert Relays(MessagesOf(o) + MessagesIn(ObjectsIn(site.parse, lines[1..]))) ==
        Relays(MessagesOf(o)) + Relays(MessagesIn(ObjectsIn(site.parse, lines[1..])));
    }
  }

  lemma LineMeans(env: Env, site: Site, role: Role, line: string) returns (o: Object)
    requires GoodSite(site) && UpLine(env, role, line)
    ensures site.parse(line) == Some(Obj(o)) && ItemsOf(o) == Relays(MessagesOf(o))
    ensures forall m :: m in MessagesOf(o) ==> Net.RelayAccepts(env, role, m)
  {
    hide WellFormed, Stringify, Transport.MembersOf, Net.RelayAccepts, IsBlank, GoodSite, ToObject, ItemsOf, MessagesOf,
         Server.ChatEntries, Name, Fits, ChatObject, FromObject;
    if m :| HandshakeLine(env, role, line, m) {
      HandshakeText(env, site, role, m);
      AcceptedIsWellFormed(env, role, m);
      MessageIsHarmless(env, m);
      MessageOfObject(m);
      o := ToObject(m);
      assert Relays([m]) == [Net.Relayed(m)];
    } else {
      var text :| ChatLine(role, line, text);
      ChatText(site, role, text);
      ChatIsNoMessage(role, text);
      o := ChatObject(role, text);
      assert Relays([]) == [];
    }
  }

  // ---- A client acts ----------------------------------------------------------------------------

  predicate Working(coins: seq<Coins>) {
    forall c :: c in coins ==> c.key.Some? && c.ackSignature.Some?
  }

  // The state with a client that has this left to handle, and has written what the effect says.
  function Acted(net: Net.Net, role: Role, out: seq<Msg>, e: Effect, items: seq<Net.Item>): (r: Net.Net)
    ensures role in r.slots
  {
    net.(slots := net.slots[role := Net.Client(e.session, out + e.written, items)], ledger := e.ledger,
         history := e.history)
  }

  // One action is a delivery, or nothing.
  lemma ActsOnce(env: Env, net: Net.Net, role: Role, o: Object, out: seq<Msg>, e: Effect, later: seq<Net.Item>,
                 coins: Coins) returns (steps: seq<Net.Step>)
    requires Harmless(env, o) && role in net.slots
    requires net == Acted(net, role, out, e, ItemsOf(o) + later)
    requires Queue.ActionFor(o, true).ToSession? ==>
      LawfulCoins(env, e.history, e.ledger, e.session, FromObject(o), coins)
    ensures var e' := Perform(env, e, Queue.ActionFor(o, true), coins);
            && Net.Reaches(env, net, steps, Acted(net, role, out, e', later))
            && (steps == [] ==> e' == e)
    ensures coins.key.Some? && coins.ackSignature.Some? ==> Quiet(steps)
  {
    hide HandleMessage, LawfulCoins, ToObject, FromObject, Harmless, Recorded, OwnHello;
    var a := Queue.ActionFor(o, true);
    HarmlessAction(env, o);
    var e' := Perform(env, e, a, coins);
    if ItemsOf(o) == [] {
      steps := [];
      assert [] + later == later;
      NoStep(env, net);
    } else {
      var step := Net.Deliver(role, coins);
      assert (ItemsOf(o) + later)[1..] == later && (ItemsOf(o) + later)[0] == ItemsOf(o)[0];
      if a.PeerIsHere? {
        assert out + (e.written + OwnHelloOnce(env, e.session)) == out + e.written + OwnHelloOnce(env, e.session);
      } else if a.ToSession? {
        var sent := HandleMessage(env, e.ledger, e.session, Obj(o), coins).result.outgoing;
        assert out + (e.written + sent) == out + e.written + sent;
      }
      assert Net.Enabled(env, net, step);
      assert Net.Next(env, net, step) == Acted(net, role, out, e', later);
      OneStep(env, net, step);
      steps := [step];
    }
  }

  // Only handshake messages reach the session, and they are the objects of well-formed ones.
  lemma HarmlessAction(env: Env, o: Object)
    requires Harmless(env, o)
    ensures !Queue.ActionFor(o, true).AssignIdentity? && !Queue.ActionFor(o, true).Ignore?
    ensures Queue.ActionFor(o, true).ToSession? ==>
              Queue.ActionFor(o, true).message == o && ToObject(FromObject(o)) == o
  {
    hide ToObject, FromObject, HandshakeVerdict;
    if Queue.ActionFor(o, true).ToSession? {
      ValidIsWellFormed(env, o);
    }
  }

  // Working off a queue is a run of deliveries.
  lemma {:induction false} DrainActs(env: Env, net: Net.Net, role: Role, c: Queue.Client, out: seq<Msg>, e: Effect,
                                     later: seq<Net.Item>, coins: seq<Coins>) returns (steps: seq<Net.Step>)
    requires c.hasSession && c.generating.None? && !c.crashed && forall o :: o in c.queue ==> Harmless(env, o)
    requires role in net.slots && net == Acted(net, role, out, e, ItemsIn(c.queue) + later)
    requires Lawful(env, e, Queue.Drain(c).1, coins)
    ensures Queue.Drain(c).0 == c.(queue := [])
    ensures Net.Reaches(env, net, steps, Acted(net, role, out, PerformAll(env, e, Queue.Drain(c).1, coins), later))
    ensures steps == [] ==> PerformAll(env, e, Queue.Drain(c).1, coins) == e
    ensures Working(coins) ==> Quiet(steps)
    decreases |c.queue|
  {
    hide Harmless, Perform, LawfulCoins, Net.Reaches, Queue.ActionFor, ItemsOf, Queue.Drain, Acted;
    if c.queue == [] {
      assert Queue.Drain(c) == (c, []) by { EmptyDrain(c); }
      steps := [];
      assert [] + later == later;
      NoStep(env, net);
    } else {
      var o, c1 := c.queue[0], c.(queue := c.queue[1..]);
      DrainsNext(env, c);
      var a := Queue.ActionFor(o, true);
      var e1 := Perform(env, e, a, coins[0]);
      var items := ItemsIn(c1.queue) + later;
      assert ItemsIn(c.queue) + later == ItemsOf(o) + items;
      HarmlessAction(env, o);
      var first := ActsOnce(env, net, role, o, out, e, items, coins[0]);
      var next := Acted(net, role, out, e1, items);
      assert Queue.Drain(c).1[1..] == Queue.Drain(c1).1;
      ActedTwice(net, role, out, e1, items, e1, items);
      var tail := DrainActs(env, next, role, c1, out, e1, later, coins[1..]);
      var e2 := PerformAll(env, e1, Queue.Drain(c1).1, coins[1..]);
      ActedTwice(net, role, out, e1, items, e2, later);
      RunsCompose(env, net, first, next, tail, Acted(net, role, out, e2, later));
      steps := first + tail;
    }
  }

  lemma ActedTwice(net: Net.Net, role: Role, out: seq<Msg>, e: Effect, items: seq<Net.Item>, e': Effect,
                   items': seq<Net.Item>)
    ensures Acted(Acted(net, role, out, e, items), role, out, e', items') == Acted(net, role, out, e', items')
  {
  }

  lemma EmptyDrain(c: Queue.Client)
    requires c.queue == [] || c.generating.Some? || c.crashed
    ensures Queue.Drain(c) == (c, [])
  {
  }

  lemma DrainsNext(env: Env, c: Queue.Client)
    requires c.hasSession && c.generating.None? && !c.crashed && c.queue != [] && Harmless(env, c.queue[0])
    ensures var c1 := c.(queue := c.queue[1..]);
            && Queue.Drain(c).0 == Queue.Drain(c1).0
            && Queue.Drain(c).1 == [Queue.ActionFor(c.queue[0], true)] + Queue.Drain(c1).1
  {
    hide Harmless, Queue.ActionFor;
    HarmlessHandled(env, c.(queue := c.queue[1..]), c.queue[0]);
  }

  lemma HarmlessHandled(env: Env, c: Queue.Client, o: Object)
    requires Harmless(env, o) && c.hasSession && !c.crashed
    ensures Queue.Handle(c, o) == c
  {
    HarmlessAction(env, o);
    hide ToObject, FromObject, ValidateMessage;
  }

  // ---- Sane systems -----------------------------------------------------------------------------

  // What a client wrote and the server has not processed: whole lines that the server takes.
  ghost predicate UpOk(env: Env, role: Role, text: string) {
    Whole(text) && forall l :: l in LinesIn(text) ==> UpLine(env, role, l)
  }

  // What the server wrote and the client has not handled: first the greeting, then harmless lines. The queue
  // is empty unless keys are being generated.
  predicate DownOk(env: Env, site: Site, role: Role, c: Queue.Client, down: string) {
    var lines := LinesIn(c.buffer + down);
    && !c.crashed && !c.closing && '\n' !in c.buffer && Whole(c.buffer + down)
    && (forall o :: o in c.queue ==> Harmless(env, o))
    && (c.generating.None? ==> c.queue == [])
    && (c.generating.Some? ==> c.generating == Some(Name(role)) && !c.hasSession)
    && if c.generating.Some? || c.hasSession then forall l :: l in lines ==> DownLine(env, site, l)
       else lines != [] && GreetingLine(env, site, role, lines[0])
            && forall l :: l in lines[1..] ==> DownLine(env, site, l)
  }

  ghost predicate SlotSane(env: Env, site: Site, sys: System, role: Role) {
    && (role in sys.programs <==> role in sys.server.slots)
    && (role in sys.programs ==>
          var p, s := sys.programs[role], sys.server.slots[role];
          && p.socket == s.socket && !s.closing
          && UpOk(env, role, s.buffer + p.up) && DownOk(env, site, role, p.client, p.down))
  }

  // The server is up, no connection is closing, nobody crashed, and only proper lines are on the way.
  ghost predicate Sane(env: Env, site: Site, sys: System) {
    && !sys.server.down && Server.ServerInv(sys.server)
    && SlotSane(env, site, sys, ClientA) && SlotSane(env, site, sys, ClientB)
  }

  lemma StartIsSane(env: Env, site: Site)
    ensures Sane(env, site, START) && Seen(site, START) == Net.INITIAL
  {
  }

  // ---- A client reads ---------------------------------------------------------------------------

  lemma {:induction false} AllQueued(env: Env, site: Site, lines: seq<string>)
    requires forall l :: l in lines ==> Carried(env, site, l)
    ensures !Server.AnyFatal(env, site.parse, lines)
    ensures Queue.Queued(env, site.parse, lines) == ObjectsIn(site.parse, lines)
  {
    hide ValidateMessage, IsBlank, Fits;
    if lines != [] {
      assert Carried(env, site, lines[0]);
      AllQueued(env, site, lines[1..]);
      Server.NextFatal(env, site.parse, lines);
      assert !Server.IsFatal(env, site.parse, lines[0]);
    }
  }

  // A chunk comes in: its messages join the queue, and nothing else changes before the queue is worked off.
  lemma Intake(env: Env, site: Site, role: Role, p: Program, n: nat) returns (c: Queue.Client)
    requires n <= |p.down| && DownOk(env, site, role, p.client, p.down)
    ensures Reading(env, site, p, n) == Queue.Drain(c)
    ensures c == p.client.(buffer := c.buffer, queue := c.queue)
    ensures Pending(site.parse, p.(client := c, down := p.down[n..])) == Pending(site.parse, p)
    ensures '\n' !in c.buffer && Whole(c.buffer + p.down[n..])
    ensures exists got ::
      && got + LinesIn(c.buffer + p.down[n..]) == LinesIn(p.client.buffer + p.down)
      && c.queue == p.client.queue + ObjectsIn(site.parse, got)
  {
    hide Fed, LinesIn, Whole, Carried, Queue.Drain, DownOk, Server.AnyFatal, ObjectsIn, Queue.Queued, Server.Calm;
    AreCarried(env, site, role, p.client, p.down);
    ReadPart(p.client.buffer, p.down, n);
    var (r, rest) := Fed(p.client.buffer, p.down[..n], MAX_FRAME_SIZE);
    var got, later := r.value, LinesIn(rest + p.down[n..]);
    assert forall l :: l in got ==> l in got + later;
    AllQueued(env, site, got);
    Server.CalmIsPrefix(env, site.parse, got);
    c := p.client.(buffer := rest, queue := p.client.queue + ObjectsIn(site.parse, got));
    ObjectsConcat(site.parse, got, later);
    assert c.queue + ObjectsIn(site.parse, later) == p.client.queue + ObjectsIn(site.parse, got + later);
  }

  lemma AreCarried(env: Env, site: Site, role: Role, c: Queue.Client, down: string)
    requires DownOk(env, site, role, c, down)
    ensures Whole(c.buffer + down)
    ensures forall l :: l in LinesIn(c.buffer + down) ==> Carried(env, site, l)
  {
    hide SplitLines, Carried, Harmless, Name, ItemsOf;
    var lines := LinesIn(c.buffer + down);
    forall l | l in lines
      ensures Carried(env, site, l)
    {
      if !(c.generating.Some? || c.hasSession) {
        assert lines == [lines[0]] + lines[1..];
      }
    }
  }

  // ---- Replacing one program --------------------------------------------------------------------

  lemma Replaced(env: Env, site: Site, sys: System, role: Role, p: Program, ledger: Ledger, history: History)
    requires Sane(env, site, sys) && role in sys.programs && p.socket == sys.programs[role].socket
    requires UpOk(env, role, BufferOf(sys.server, role) + p.up) && DownOk(env, site, role, p.client, p.down)
    ensures var sys' := sys.(programs := sys.programs[role := p], ledger := ledger, history := history);
            var net := Seen(site, sys);
            && Sane(env, site, sys')
            && role in net.slots
            && Seen(site, sys') ==
                 net.(slots := net.slots[role := ClientOf(site, BufferOf(sys.server, role), p)], ledger := ledger,
                      history := history)
  {
    hide UpOk, DownOk, Server.ServerInv, ClientOf;
    var sys' := sys.(programs := sys.programs[role := p], ledger := ledger, history := history);
    assert SlotSane(env, site, sys, role) && SlotSane(env, site, sys, Peer(role));
    assert SlotSane(env, site, sys', role) && SlotSane(env, site, sys', Peer(role));
  }

  lemma SlotOf(env: Env, site: Site, sys: System, role: Role)
    requires Sane(env, site, sys)
    ensures role in sys.programs <==> role in sys.server.slots
    ensures role in sys.programs ==>
              var p, s := sys.programs[role], sys.server.slots[role];
              && p.socket == s.socket && !s.closing && BufferOf(sys.server, role) == s.buffer
              && UpOk(env, role, s.buffer + p.up) && DownOk(env, site, role, p.client, p.down)
              && role in Seen(site, sys).slots
              && Seen(site, sys).slots[role] == ClientOf(site, s.buffer, p)
  {
    hide UpOk, DownOk, Server.ServerInv, ClientOf;
    assert SlotSane(env, site, sys, role);
  }

  // ---- What a client writes ---------------------------------------------------------------------

  lemma {:induction false} TextsMean(env: Env, site: Site, role: Role, ms: seq<Msg>)
    requires GoodSite(site) && forall m :: m in ms ==> Net.RelayAccepts(env, role, m)
    ensures var lines := Transport.Texts(Transport.AllEntries(ms));
            && MessagesIn(ObjectsIn(site.parse, lines)) == ms
            && forall l :: l in lines ==> UpLine(env, role, l)
  {
    hide GoodSite, Net.RelayAccepts, UpLine, Stringify, Transport.MembersOf, ToObject, MessagesOf;
    var lines := Transport.Texts(Transport.AllEntries(ms));
    if ms != [] {
      HandshakeText(env, site, role, ms[0]);
      MessageOfObject(ms[0]);
      TextsMean(env, site, role, ms[1..]);
      var rest := Transport.Texts(Transport.AllEntries(ms[1..]));
      assert lines == [Stringify(Transport.MembersOf(ms[0]))] + rest;
      assert [ms[0]] + ms[1..] == ms;
    }
  }

  // Messages are written behind what is on the way.
  lemma WrittenUp(env: Env, site: Site, role: Role, text: string, ms: seq<Msg>)
    requires GoodSite(site) && UpOk(env, role, text) && forall m :: m in ms ==> Net.RelayAccepts(env, role, m)
    ensures var text' := text + Transport.Wire(Transport.AllEntries(ms));
            && UpOk(env, role, text')
            && MessagesIn(ObjectsIn(site.parse, LinesIn(text'))) ==
                 MessagesIn(ObjectsIn(site.parse, LinesIn(text))) + ms
  {
    hide GoodSite, Net.RelayAccepts, UpLine, LinesIn, Whole, Transport.Texts, Transport.AllEntries;
    var lines := Transport.Texts(Transport.AllEntries(ms));
    TextsMean(env, site, role, ms);
    Transport.WireIsUnsplit(Transport.AllEntries(ms));
    forall l | l in lines
      ensures IsFrame(l)
    {
      UpLineIsFrame(env, role, l);
    }
    WriteLines(text, lines);
    ObjectsConcat(site.parse, LinesIn(text), lines);
    MessagesConcat(ObjectsIn(site.parse, LinesIn(text)), ObjectsIn(site.parse, lines));
  }

  lemma UpLineIsFrame(env: Env, role: Role, line: string)
    requires UpLine(env, role, line)
    ensures IsFrame(line)
  {
    hide IsBlank, Fits;
  }

  function UpOf(sys: System, role: Role): string {
    if role in sys.programs then sys.programs[role].up else ""
  }

  // ---- A client's turn --------------------------------------------------------------------------

  // The client before it works off its queue, with this left to read, in the place of the one in the slot.
  predicate Takes(env: Env, site: Site, p: Program, c: Queue.Client, down: string) {
    && !c.crashed && !c.closing && '\n' !in c.buffer && Whole(c.buffer + down)
    && c.queue + ObjectsIn(site.parse, LinesIn(c.buffer + down)) == Pending(site.parse, p)
  }

  // A client with a session: its actions are deliveries.
  lemma SessionTurn(env: Env, site: Site, past: seq<Net.Step>, sys: System, role: Role, c: Queue.Client,
                    coins: seq<Coins>, down: string) returns (steps: seq<Net.Step>)
    requires GoodSite(site) && Sane(env, site, sys) && Net.Reaches(env, Net.INITIAL, past, Seen(site, sys))
    requires role in sys.programs && Takes(env, site, sys.programs[role], c, down)
    requires c.hasSession && c.generating.None? && forall o :: o in c.queue ==> Harmless(env, o)
    requires forall l :: l in LinesIn(c.buffer + down) ==> DownLine(env, site, l)
    requires Lawful(env, Started(sys, role), Queue.Drain(c).1, coins)
    ensures var sys' := AfterActing(env, sys, role, Queue.Drain(c).0, Queue.Drain(c).1, coins, down);
            && Sane(env, site, sys') && Net.Reaches(env, Seen(site, sys), steps, Seen(site, sys'))
            && (steps == [] ==> UpOf(sys', role) == UpOf(sys, role))
    ensures Working(coins) ==> Quiet(steps)
  {
    hide GoodSite, Sane, Net.Reaches, Queue.Drain, Harmless, DownLine, UpOk, Acted, Perform, LawfulCoins, ItemsIn,
         LinesIn, Net.RelayAccepts, Whole, MessagesIn, ObjectsIn;
    var p, net := sys.programs[role], Seen(site, sys);
    SlotOf(env, site, sys, role);
    var text := BufferOf(sys.server, role) + p.up;
    var out, later := net.slots[role].outbox, ObjectsIn(site.parse, LinesIn(c.buffer + down));
    var e := Started(sys, role);
    ItemsConcat(c.queue, later);
    ActedNothing(net, role, out, e, ItemsIn(c.queue) + ItemsIn(later));
    steps := DrainActs(env, net, role, c, out, e, ItemsIn(later), coins);
    var e' := PerformAll(env, e, Queue.Drain(c).1, coins);
    var net' := Acted(net, role, out, e', ItemsIn(later));
    RunsCompose(env, Net.INITIAL, past, net, steps, net');
    OutboxAccepted(env, past + steps, net', role);
    ActedClient(net, role, out, e', ItemsIn(later));
    WrittenUp(env, site, role, text, e'.written);
    var sent := Transport.Wire(Transport.AllEntries(e'.written));
    var p' := Program(p.socket, Queue.Drain(c).0, e'.session, p.up + sent, down);
    assert BufferOf(sys.server, role) + (p.up + sent) == text + sent;
    assert [] + later == later;
    assert DownOk(env, site, role, p'.client, p'.down);
    Replaced(env, site, sys, role, p', e'.ledger, e'.history);
    if steps == [] {
      NothingWritten(p.up);
    }
  }

  lemma NothingWritten(up: string)
    ensures up + Transport.Wire(Transport.AllEntries([])) == up
  {
    assert up + "" == up;
  }

  lemma ActedNothing(net: Net.Net, role: Role, out: seq<Msg>, e: Effect, items: seq<Net.Item>)
    requires role in net.slots && net.slots[role] == Net.Client(e.session, out, items)
    requires e.written == [] && net.ledger == e.ledger && net.history == e.history
    ensures Acted(net, role, out, e, items) == net
  {
    assert out + [] == out;
  }

  lemma ActedClient(net: Net.Net, role: Role, out: seq<Msg>, e: Effect, items: seq<Net.Item>)
    ensures Acted(net, role, out, e, items) == net.(slots := net.slots[role := Net.Client(e.session, out + e.written,
                                                                                           items)],
                                                    ledger := e.ledger, history := e.history)
    ensures forall m :: m in e.written ==> m in Acted(net, role, out, e, items).slots[role].outbox
  {
  }

  lemma {:induction false} HarmlessObjects(env: Env, site: Site, lines: seq<string>)
    requires forall l :: l in lines ==> DownLine(env, site, l)
    ensures forall o :: o in ObjectsIn(site.parse, lines) ==> Harmless(env, o)
  {
    hide Harmless, Carried;
    if lines != [] {
      assert DownLine(env, site, lines[0]);
      HarmlessObjects(env, site, lines[1..]);
    }
  }

  // A client without a session has at most the greeting to handle, and that shows only in what it waits for.
  lemma NoSessionTurn(env: Env, site: Site, sys: System, role: Role, c: Queue.Client, actions: seq<Queue.Action>,
                      coins: seq<Coins>, down: string)
    requires GoodSite(site) && Sane(env, site, sys) && role in sys.programs && |actions| <= |coins|
    requires forall a :: a in actions ==> a.AssignIdentity?
    requires DownOk(env, site, role, c, down)
    requires ItemsIn(c.queue + ObjectsIn(site.parse, LinesIn(c.buffer + down))) ==
      ItemsIn(Pending(site.parse, sys.programs[role]))
    ensures var sys' := AfterActing(env, sys, role, c, actions, coins, down);
            && Sane(env, site, sys') && Seen(site, sys') == Seen(site, sys)
            && UpOf(sys', role) == UpOf(sys, role)
  {
    hide GoodSite, Sane, DownOk, UpOk, ItemsIn, LinesIn, MessagesIn, ObjectsIn;
    var p := sys.programs[role];
    SlotOf(env, site, sys, role);
    OnlyAssigns(env, Started(sys, role), actions, coins);
    NothingWritten(p.up);
    var p' := Program(p.socket, c, p.session, p.up, down);
    Replaced(env, site, sys, role, p', sys.ledger, sys.history);
  }

  lemma {:induction false} OnlyAssigns(env: Env, e: Effect, actions: seq<Queue.Action>, coins: seq<Coins>)
    requires |actions| <= |coins| && forall a :: a in actions ==> a.AssignIdentity?
    ensures PerformAll(env, e, actions, coins) == e
    decreases |actions|
  {
    if actions != [] {
      assert actions[0] in actions;
      OnlyAssigns(env, e, actions[1..], coins[1..]);
    }
  }

  lemma GreetingFirst(env: Env, site: Site, role: Role, c: Queue.Client, got: seq<string>)
    requires got != [] && GreetingLine(env, site, role, got[0])
    requires !c.hasSession && c.generating.None? && !c.crashed && c.queue == ObjectsIn(site.parse, got)
    ensures Queue.Drain(c) ==
      (c.(queue := ObjectsIn(site.parse, got[1..]), generating := Some(Name(role))),
       [Queue.AssignIdentity(Name(role))])
    ensures ItemsIn(c.queue) == ItemsIn(ObjectsIn(site.parse, got[1..]))
  {
    hide Queue.ActionFor, ValidateMessage, IsBlank, Fits, Name, ItemsOf;
    var o, rest := site.parse(got[0]).value.fields, ObjectsIn(site.parse, got[1..]);
    assert c.queue == [o] + rest;
    assert c.queue[1..] == rest;
    var c1 := Queue.Handle(c.(queue := rest), o);
    assert Queue.Drain(c1) == (c1, []);
    assert [Queue.AssignIdentity(Name(role))] + [] == [Queue.AssignIdentity(Name(role))];
    assert [] + ItemsIn(rest) == ItemsIn(rest);
  }

  lemma ReadsSimulates(env: Env, site: Site, past: seq<Net.Step>, sys: System, role: Role, n: nat, coins: seq<Coins>)
    returns (steps: seq<Net.Step>)
    requires GoodSite(site) && Sane(env, site, sys) && Net.Reaches(env, Net.INITIAL, past, Seen(site, sys))
    requires Enabled(env, site, sys, ClientReads(role, n, coins))
    ensures var sys' := Next(env, site, sys, ClientReads(role, n, coins));
            && Sane(env, site, sys') && Net.Reaches(env, Seen(site, sys), steps, Seen(site, sys'))
            && (steps == [] ==> UpOf(sys', role) == UpOf(sys, role))
    ensures Working(coins) ==> Quiet(steps)
  {
    hide GoodSite, Sane, Net.Reaches, Queue.Drain, Queue.OnArrive, Harmless, DownLine, UpOk, ItemsIn, LinesIn, Whole,
         ObjectsIn, LawfulCoins, PerformAll, Name, GreetingLine;
    SlotOf(env, site, sys, role);
    var p := sys.programs[role];
    var c := Intake(env, site, role, p, n);
    var down := p.down[n..];
    var later := LinesIn(c.buffer + down);
    var got :| got + later == LinesIn(p.client.buffer + p.down)
               && c.queue == p.client.queue + ObjectsIn(site.parse, got);
    steps := [];
    NoStep(env, Seen(site, sys));
    if c.hasSession {
      assert forall l :: l in got ==> l in got + later;
      HarmlessObjects(env, site, got);
      steps := SessionTurn(env, site, past, sys, role, c, coins, down);
    } else if c.generating.Some? {
      assert forall l :: l in got ==> l in got + later;
      HarmlessObjects(env, site, got);
      EmptyDrain(c);
      assert DownOk(env, site, role, c, down);
      NoSessionTurn(env, site, sys, role, c, [], coins, down);
    } else if got == [] {
      assert c.queue == [] by { assert ObjectsIn(site.parse, []) == [] by { NoObjects(site); } }
      assert [] + later == later;
      EmptyDrain(c);
      assert DownOk(env, site, role, c, down);
      NoSessionTurn(env, site, sys, role, c, [], coins, down);
    } else {
      var lines := got + later;
      assert got[0] == lines[0] && lines[1..] == got[1..] + later;
      assert forall l :: l in got[1..] ==> l in lines[1..];
      assert forall l :: l in later ==> l in lines[1..];
      assert p.client.queue + ObjectsIn(site.parse, got) == ObjectsIn(site.parse, got);
      HarmlessObjects(env, site, got[1..]);
      GreetingFirst(env, site, role, c, got);
      var c' := Queue.Drain(c).0;
      ItemsConcat(c.queue, ObjectsIn(site.parse, later));
      ItemsConcat(c'.queue, ObjectsIn(site.parse, later));
      assert DownOk(env, site, role, c', down);
      NoSessionTurn(env, site, sys, role, c', Queue.Drain(c).1, coins, down);
    }
  }

  lemma NoObjects(site: Site)
    ensures ObjectsIn(site.parse, []) == []
  {
  }

  lemma KeysSimulates(env: Env, site: Site, past: seq<Net.Step>, sys: System, role: Role, coins: seq<Coins>)
    returns (steps: seq<Net.Step>)
    requires GoodSite(site) && Sane(env, site, sys) && Net.Reaches(env, Net.INITIAL, past, Seen(site, sys))
    requires Enabled(env, site, sys, KeysReady(role, coins))
    ensures var sys' := Next(env, site, sys, KeysReady(role, coins));
            && Sane(env, site, sys') && Net.Reaches(env, Seen(site, sys), steps, Seen(site, sys'))
            && (steps == [] ==> UpOf(sys', role) == UpOf(sys, role))
    ensures Working(coins) ==> Quiet(steps)
  {
    hide GoodSite, Sane, Net.Reaches, Queue.Drain, Harmless, DownLine, UpOk, ItemsIn, LinesIn, Whole, ObjectsIn,
         LawfulCoins, PerformAll;
    SlotOf(env, site, sys, role);
    var p := sys.programs[role];
    var c := p.client.(hasSession := true, generating := None);
    assert Queue.TakesIdentity(Name(role));
    steps := SessionTurn(env, site, past, sys, role, c, coins, p.down);
  }

  // ---- The server's turn ------------------------------------------------------------------------

  // Lines are written to a client that has not read all of what was written before.
  lemma Posted(env: Env, site: Site, role: Role, p: Program, lines: seq<string>)
    requires DownOk(env, site, role, p.client, p.down) && forall l :: l in lines ==> DownLine(env, site, l)
    ensures var p' := p.(down := p.down + Unsplit(lines, ""));
            && DownOk(env, site, role, p'.client, p'.down)
            && ItemsIn(Pending(site.parse, p')) ==
                 ItemsIn(Pending(site.parse, p)) + ItemsIn(ObjectsIn(site.parse, lines))
  {
    hide Harmless, DownLine, Name, ItemsIn, LinesIn, Whole, ObjectsIn, GreetingLine, Carried;
    var text, before := p.client.buffer + p.down, LinesIn(p.client.buffer + p.down);
    forall l | l in lines
      ensures IsFrame(l)
    {
      CarriedObject(env, site, l);
    }
    WriteLines(text, lines);
    assert p.client.buffer + (p.down + Unsplit(lines, "")) == text + Unsplit(lines, "");
    ObjectsConcat(site.parse, before, lines);
    var pending, more := Pending(site.parse, p), ObjectsIn(site.parse, lines);
    assert p.client.queue + (ObjectsIn(site.parse, before) + more) == pending + more;
    ItemsConcat(pending, more);
    if before != [] {
      assert (before + lines)[0] == before[0] && (before + lines)[1..] == before[1..] + lines;
    }
  }

  // The server's side of reading a part of a client's stream.
  lemma ServerTakes(env: Env, site: Site, sys: System, role: Role, n: nat) returns (got: seq<string>, rest: string)
    requires GoodSite(site) && Sane(env, site, sys) && Enabled(env, site, sys, ServerReads(role, n))
    ensures forall l :: l in got ==> UpLine(env, role, l)
    ensures var p, s := sys.programs[role], sys.server.slots[role];
            var (server, records) := Server.Step(env, site.parse, sys.server, Server.Data(role, p.up[..n]));
            && server == sys.server.(slots := sys.server.slots[role := s.(buffer := rest)])
            && records == Server.Handled(env, site.parse, role, p.socket, Server.Occupant(sys.server, Peer(role)), got)
            && got + LinesIn(rest + p.up[n..]) == LinesIn(s.buffer + p.up)
            && UpOk(env, role, rest + p.up[n..])
    ensures Server.Occupant(sys.server, Peer(role)) != Some(sys.programs[role].socket)
  {
    hide GoodSite, UpLine, DownOk, LinesIn, Whole, SplitLines, Fits, Server.Handled, Server.AnyFatal;
    SlotOf(env, site, sys, role);
    var p, s := sys.programs[role], sys.server.slots[role];
    ReadPart(s.buffer, p.up, n);
    var fed := Fed(s.buffer, p.up[..n], MAX_FRAME_SIZE);
    got, rest := fed.0.value, fed.1;
    var later := LinesIn(rest + p.up[n..]);
    assert forall l :: l in got ==> l in got + later;
    assert forall l :: l in later ==> l in got + later;
    OtherSocket(sys.server, role);
    LinesAnswered(env, site, role, p.socket, Server.Occupant(sys.server, Peer(role)), got);
  }

  lemma OtherSocket(server: Server.Server, role: Role)
    requires Server.ServerInv(server) && role in server.slots
    ensures Server.Occupant(server, Peer(role)) != Some(server.slots[role].socket)
  {
    hide Fits;
    assert role == ClientA || role == ClientB;
  }

  lemma ServerSimulates(env: Env, site: Site, sys: System, role: Role, n: nat) returns (steps: seq<Net.Step>)
    requires GoodSite(site) && Sane(env, site, sys) && Enabled(env, site, sys, ServerReads(role, n))
    ensures var sys' := Next(env, site, sys, ServerReads(role, n));
            Sane(env, site, sys') && Net.Reaches(env, Seen(site, sys), steps, Seen(site, sys')) && Quiet(steps)
  {
    hide GoodSite, UpLine, DownOk, UpOk, LinesIn, Server.Handled, Server.OnData, Net.Reaches, Net.RelayAccepts, ItemsIn,
         MessagesIn, ObjectsIn, Unsplit, LinesTo, Relays, DownLine, Server.ServerInv, Pending;
    var peer := Peer(role);
    SlotOf(env, site, sys, role);
    SlotOf(env, site, sys, peer);
    var got, rest := ServerTakes(env, site, sys, role, n);
    var p, net := sys.programs[role], Seen(site, sys);
    var records := Server.Handled(env, site.parse, role, p.socket, Server.Occupant(sys.server, peer), got);
    Server.StepKeepsInv(env, site.parse, sys.server, Server.Data(role, p.up[..n]));
    LinesAnswered(env, site, role, p.socket, Server.Occupant(sys.server, peer), got);
    LinesMean(env, site, role, got);
    var ms, later := MessagesIn(ObjectsIn(site.parse, got)), LinesIn(rest + p.up[n..]);
    ObjectsConcat(site.parse, got, later);
    MessagesConcat(ObjectsIn(site.parse, got), ObjectsIn(site.parse, later));
    var out := MessagesIn(ObjectsIn(site.parse, later));
    steps := RelaysAll(env, net, role, ms, out);
    Posted(env, site, role, p.(up := p.up[n..]), LinesTo(site, records, p.socket));
    if peer in sys.programs {
      assert Server.Occupant(sys.server, peer) == Some(sys.programs[peer].socket);
      forall l | l in got
        ensures DownLine(env, site, l)
      {
        UpLineIsDownLine(env, site, role, l);
      }
      Posted(env, site, peer, sys.programs[peer], got);
    }
    var sys' := Next(env, site, sys, ServerReads(role, n));
    SamePending(site, p, p.(up := p.up[n..]));
    assert net.slots[role].inbox + [] == net.slots[role].inbox;
    assert SlotSane(env, site, sys', role) && SlotSane(env, site, sys', peer);
    BothSlots(env, site, sys', role);
    SeenIs(site, sys', Relaid(net, role, out, Relays(ms)), role);
  }

  lemma SamePending(site: Site, p: Program, q: Program)
    requires q.client == p.client && q.down == p.down
    ensures Pending(site.parse, q) == Pending(site.parse, p)
  {
  }

  // A state is the one seen if it agrees in both slots and in the books.
  lemma SeenIs(site: Site, sys: System, net: Net.Net, role: Role)
    requires net.ledger == sys.ledger && net.history == sys.history && net.used == sys.used
    requires forall r: Role :: r in net.slots <==> r in sys.programs
    requires role in sys.programs ==> net.slots[role] == ClientOf(site, BufferOf(sys.server, role), sys.programs[role])
    requires Peer(role) in sys.programs ==>
      net.slots[Peer(role)] == ClientOf(site, BufferOf(sys.server, Peer(role)), sys.programs[Peer(role)])
    ensures Seen(site, sys) == net
  {
    hide ClientOf;
    forall r: Role | r in net.slots
      ensures net.slots[r] == Seen(site, sys).slots[r]
    {
      assert r == role || r == Peer(role);
    }
    assert Seen(site, sys).slots == net.slots;
  }

  lemma BothSlots(env: Env, site: Site, sys: System, role: Role)
    requires !sys.server.down && Server.ServerInv(sys.server)
    requires SlotSane(env, site, sys, role) && SlotSane(env, site, sys, Peer(role))
    ensures Sane(env, site, sys)
  {
    hide SlotSane, Server.ServerInv;
    assert role == ClientA || role == ClientB;
  }

  // ---- Connections come and go ------------------------------------------------------------------

  lemma NoticeLine(env: Env, site: Site, w: Server.Write)
    requires GoodSite(site) && (w.packet.PeerJoined? || w.packet.PeerLeft?)
    ensures DownLine(env, site, LineOf(site, w))
    ensures ItemsIn(ObjectsIn(site.parse, [LineOf(site, w)])) ==
      [if w.packet.PeerJoined? then Net.PeerJoined else Net.PeerLeft]
  {
    hide Stringify, EventEntries, DownLine, ItemsOf, StartsWith;
    assert Announces(w, site.words(w));
    EventLine(env, site, if w.packet.PeerJoined? then "PEER_JOINED" else "PEER_LEFT", w.packet.role, site.words(w));
    CarriedObject(env, site, LineOf(site, w));
    OneItem(site.parse(LineOf(site, w)).value.fields);
  }

  lemma GreetingIs(env: Env, site: Site, w: Server.Write)
    requires GoodSite(site) && w.packet.ConnectedAs?
    ensures GreetingLine(env, site, w.packet.role, LineOf(site, w)) && IsFrame(LineOf(site, w))
    ensures ItemsIn(ObjectsIn(site.parse, [LineOf(site, w)])) == []
  {
    hide Stringify, NoticeEntries, ItemsOf, StartsWith, ValidateMessage, IsBlank, Fits, Name;
    assert Announces(w, site.words(w));
    TheGreeting(env, site, w.packet.role);
    var o := site.parse(LineOf(site, w)).value.fields;
    OneObject(site.parse, LineOf(site, w), o);
    OneItem(o);
  }

  lemma LinesToOne(site: Site, w: Server.Write, cause: Server.Cause, rest: seq<Server.Record>, socket: nat)
    ensures LinesTo(site, [Server.Record(w, cause)] + rest, socket) ==
      (if w.to == socket then [LineOf(site, w)] else []) + LinesTo(site, rest, socket)
    ensures LinesTo(site, [], socket) == []
  {
    hide LineOf;
    assert ([Server.Record(w, cause)] + rest)[1..] == rest;
  }

  // What the two clients are sent when one connects.
  lemma Welcome(env: Env, site: Site, server: Server.Server, socket: nat, role: Role)
    requires GoodSite(site) && Server.ServerInv(server) && socket !in server.seen
    requires Server.FreeSlot(server) == Some(role)
    ensures var records := Server.OnConnect(server, socket).1;
            var mine, peer := LinesTo(site, records, socket), Peer(role);
            && mine != [] && GreetingLine(env, site, role, mine[0])
            && (forall l :: l in mine ==> IsFrame(l)) && (forall l :: l in mine[1..] ==> DownLine(env, site, l))
            && ItemsIn(ObjectsIn(site.parse, mine)) == (if peer in server.slots then [Net.PeerJoined] else [])
            && (peer in server.slots ==>
                  var theirs := LinesTo(site, records, server.slots[peer].socket);
                  && (forall l :: l in theirs ==> DownLine(env, site, l))
                  && ItemsIn(ObjectsIn(site.parse, theirs)) == [Net.PeerJoined])
  {
    hide GoodSite, LineOf, DownLine, GreetingLine, ItemsIn, ObjectsIn, IsFrame, LinesTo, Server.ServerInv;
    var peer, records := Peer(role), Server.OnConnect(server, socket).1;
    var hello := Server.Write(socket, Server.ConnectedAs(role));
    GreetingIs(env, site, hello);
    if peer in server.slots {
      var x := server.slots[peer].socket;
      OccupantSeen(server, peer);
      var theirs, mine := Server.Write(x, Server.PeerJoined(role)), Server.Write(socket, Server.PeerJoined(peer));
      NoticeLine(env, site, theirs);
      NoticeLine(env, site, mine);
      LineIsFrame(env, site, LineOf(site, mine));
      assert records == [Server.Record(hello, Server.Presence)] +
                        [Server.Record(theirs, Server.Presence), Server.Record(mine, Server.Presence)];
      WelcomeTo(site, hello, theirs, mine, socket);
      WelcomeTo(site, hello, theirs, mine, x);
      ObjectsConcat(site.parse, [LineOf(site, hello)], [LineOf(site, mine)]);
      ItemsConcat(ObjectsIn(site.parse, [LineOf(site, hello)]), ObjectsIn(site.parse, [LineOf(site, mine)]));
      assert [] + [Net.PeerJoined] == [Net.PeerJoined];
    } else {
      assert records == [Server.Record(hello, Server.Presence)] + [];
      LinesToOne(site, hello, Server.Presence, [], socket);
      assert LinesTo(site, records, socket) == [LineOf(site, hello)];
    }
  }

  lemma OccupantSeen(server: Server.Server, role: Role)
    requires Server.ServerInv(server) && role in server.slots
    ensures server.slots[role].socket in server.seen
  {
    hide Fits;
  }

  lemma LineIsFrame(env: Env, site: Site, line: string)
    requires DownLine(env, site, line)
    ensures IsFrame(line)
  {
    hide ValidateMessage, IsBlank, Fits;
  }

  lemma WelcomeTo(site: Site, a: Server.Write, b: Server.Write, c: Server.Write, socket: nat)
    requires b.to != c.to && a.to == c.to
    ensures var records := [Server.Record(a, Server.Presence)] +
                           [Server.Record(b, Server.Presence), Server.Record(c, Server.Presence)];
            && (socket == a.to ==> LinesTo(site, records, socket) == [LineOf(site, a)] + [LineOf(site, c)])
            && (socket == b.to ==> LinesTo(site, records, socket) == [LineOf(site, b)])
  {
    hide LineOf, LinesTo;
    var rb, rc := Server.Record(b, Server.Presence), Server.Record(c, Server.Presence);
    LinesToOne(site, c, Server.Presence, [], socket);
    LinesToOne(site, b, Server.Presence, [rc], socket);
    LinesToOne(site, a, Server.Presence, [rb, rc], socket);
    assert [rc] == [rc] + [] && [rb, rc] == [rb] + [rc];
  }

  // A client that just connected.
  lemma Newcomer(env: Env, site: Site, role: Role, lines: seq<string>)
    requires lines != [] && GreetingLine(env, site, role, lines[0])
    requires (forall l :: l in lines ==> IsFrame(l)) && forall l :: l in lines[1..] ==> DownLine(env, site, l)
    ensures DownOk(env, site, role, Queue.INITIAL, "" + Unsplit(lines, ""))
    ensures UpOk(env, role, "" + "") && MessagesIn(ObjectsIn(site.parse, LinesIn("" + ""))) == []
    ensures forall p: Program :: p.client == Queue.INITIAL && p.down == "" + Unsplit(lines, "") ==>
      ItemsIn(Pending(site.parse, p)) == ItemsIn(ObjectsIn(site.parse, lines))
  {
    hide GreetingLine, DownLine, IsFrame, Unsplit, Whole, LinesIn, UpLine, Harmless, ItemsIn, ObjectsIn, MessagesIn;
    NothingIsWhole();
    WriteLines("", lines);
    NoObjects(site);
    assert MessagesIn([]) == [] by { NoMessages(); }
    assert [] + lines == lines;
    assert "" + "" == "";
    assert "" + ("" + Unsplit(lines, "")) == "" + Unsplit(lines, "");
    assert [] + ObjectsIn(site.parse, lines) == ObjectsIn(site.parse, lines);
  }

  lemma NoMessages()
    ensures MessagesIn([]) == []
  {
  }

  lemma ArrivalSimulates(env: Env, site: Site, sys: System, socket: nat, keys: Identity) returns (steps: seq<Net.Step>)
    requires GoodSite(site) && Sane(env, site, sys) && Enabled(env, site, sys, Arrives(socket, keys))
    ensures var sys' := Next(env, site, sys, Arrives(socket, keys));
            Sane(env, site, sys') && Net.Reaches(env, Seen(site, sys), steps, Seen(site, sys'))
    ensures Server.FreeSlot(sys.server).Some? ==> steps == [Net.Connect(Server.FreeSlot(sys.server).value, keys)]
  {
    hide GoodSite, DownOk, UpOk, LinesIn, ItemsIn, MessagesIn, ObjectsIn, Unsplit, LinesTo, DownLine, Pending,
         Net.GoodIdentity, GreetingLine, Net.Reaches, IsFrame, Server.ServerInv;
    var sys' := Next(env, site, sys, Arrives(socket, keys));
    var net := Seen(site, sys);
    Server.StepKeepsInv(env, site.parse, sys.server, Server.Connect(socket));
    SlotOf(env, site, sys, ClientA);
    SlotOf(env, site, sys, ClientB);
    match Server.FreeSlot(sys.server)
    case None =>
      steps := [];
      assert SlotSane(env, site, sys', ClientA) && SlotSane(env, site, sys', ClientB);
      SeenIs(site, sys', net, ClientA);
      NoStep(env, net);
    case Some(role) =>
      var peer, step := Peer(role), Net.Connect(role, keys);
      var records := Server.OnConnect(sys.server, socket).1;
      Welcome(env, site, sys.server, socket, role);
      Newcomer(env, site, role, LinesTo(site, records, socket));
      if peer in sys.programs {
        Posted(env, site, peer, sys.programs[peer], LinesTo(site, records, sys.programs[peer].socket));
      }
      OneStep(env, net, step);
      steps := [step];
      assert SlotSane(env, site, sys', role) && SlotSane(env, site, sys', peer);
      BothSlots(env, site, sys', role);
      SeenIs(site, sys', Net.Next(env, net, step), role);
  }

  lemma LeavingSimulates(env: Env, site: Site, sys: System, role: Role) returns (steps: seq<Net.Step>)
    requires GoodSite(site) && Sane(env, site, sys) && Enabled(env, site, sys, Leaves(role))
    ensures var sys' := Next(env, site, sys, Leaves(role));
            Sane(env, site, sys') && Net.Reaches(env, Seen(site, sys), steps, Seen(site, sys'))
  {
    hide GoodSite, DownOk, UpOk, LinesIn, ItemsIn, MessagesIn, ObjectsIn, Unsplit, LinesTo, DownLine, Pending,
         Net.Reaches, Server.ServerInv, LineOf;
    var sys' := Next(env, site, sys, Leaves(role));
    var net, peer, step := Seen(site, sys), Peer(role), Net.Disconnect(role);
    Server.StepKeepsInv(env, site.parse, sys.server, Server.Close(role));
    SlotOf(env, site, sys, role);
    SlotOf(env, site, sys, peer);
    if peer in sys.programs {
      var x := sys.programs[peer].socket;
      var w := Server.Write(x, Server.PeerLeft(role));
      NoticeLine(env, site, w);
      LinesToOne(site, w, Server.Presence, [], x);
      assert Server.OnClose(sys.server, role).1 == [Server.Record(w, Server.Presence)] + [];
      assert LinesTo(site, Server.OnClose(sys.server, role).1, x) == [LineOf(site, w)];
      Posted(env, site, peer, sys.programs[peer], [LineOf(site, w)]);
    }
    OneStep(env, net, step);
    steps := [step];
    assert SlotSane(env, site, sys', role) && SlotSane(env, site, sys', peer);
    BothSlots(env, site, sys', role);
    SeenIs(site, sys', Net.Next(env, net, step), role);
  }

  lemma TypingSimulates(env: Env, site: Site, sys: System, role: Role, line: string)
    requires GoodSite(site) && Sane(env, site, sys) && Enabled(env, site, sys, Types(role, line))
    ensures var sys' := Next(env, site, sys, Types(role, line));
            Sane(env, site, sys') && Seen(site, sys') == Seen(site, sys)
  {
    hide GoodSite, Sane, DownOk, LinesIn, Whole, Stringify, Server.ChatEntries, Name, ClientMachines.Trim, Utf8,
         IsBlank, MessagesIn, ObjectsIn, ItemsIn, MessagesOf, ItemsOf;
    var text, p := ClientMachines.Trim(line), sys.programs[role];
    var frame := Stringify(Server.ChatEntries(Name(role), text));
    SlotOf(env, site, sys, role);
    TrimmedNotBlank(line);
    ChatText(site, role, text);
    Transport.Sizes(frame, "\n");
    assert ChatLine(role, frame, text) && UpLine(env, role, frame);
    var before := BufferOf(sys.server, role) + p.up;
    WriteFrame(before, frame);
    assert BufferOf(sys.server, role) + (p.up + (frame + "\n")) == before + (frame + "\n");
    OneObject(site.parse, frame, ChatObject(role, text));
    ObjectsConcat(site.parse, LinesIn(before), [frame]);
    MessagesConcat(ObjectsIn(site.parse, LinesIn(before)), [ChatObject(role, text)]);
    OneMessage(ChatObject(role, text));
    ChatIsNoMessage(role, text);
    var messages := MessagesIn(ObjectsIn(site.parse, LinesIn(before)));
    assert messages + [] == messages;
    Replaced(env, site, sys, role, p.(up := p.up + (frame + "\n")), sys.ledger, sys.history);
  }

  lemma TrimmedNotBlank(line: string)
    requires ClientMachines.Trim(line) != ""
    ensures !IsBlank(ClientMachines.Trim(line))
  {
    ClientMachines.TrimEndNotBlank(ClientMachines.TrimStart(line));
  }
}
