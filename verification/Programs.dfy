// What follows for the programs as they run, from the first connection on: they keep to the abstract system,
// agree, complete the handshake, and come to rest.
module Programs {
  import opened Wrappers
  import opened Text
  import opened Crypto
  import opened Messages
  import opened Framing
  import opened JsonText
  import opened Sessions
  import opened Evidence
  import opened WholeSystem
  import opened Wires
  import opened Simulation
  import Convergence
  import Provenance
  import ChurnConvergence
  import HonestAgreement
  import Queues = EntangledQueues
  import Net = HonestNetwork
  import Server = Relaying
  import Queue = ClientQueue

  // ---- The result -------------------------------------------------------------------------------

  // Nobody comes or goes, and the primitives work.
  predicate IsCalm(step: Step) {
    match step
    case Arrives(_, _) => false
    case Leaves(_) => false
    case Types(_, _) => true
    case ServerReads(_, _) => true
    case ClientReads(_, _, coins) => Working(coins)
    case KeysReady(_, coins) => Working(coins)
  }

  predicate AllCalm(steps: seq<Step>) {
    forall s :: s in steps ==> IsCalm(s)
  }

  // Every step of the programs is a run of the abstract system between the states they stand for.
  lemma StepSimulates(env: Env, site: Site, past: seq<Net.Step>, sys: System, step: Step)
    returns (steps: seq<Net.Step>)
    requires GoodSite(site) && Sane(env, site, sys) && Net.Reaches(env, Net.INITIAL, past, Seen(site, sys))
    requires Enabled(env, site, sys, step)
    ensures var sys' := Next(env, site, sys, step);
            Sane(env, site, sys') && Net.Reaches(env, Seen(site, sys), steps, Seen(site, sys'))
    ensures IsCalm(step) ==> Quiet(steps)
  {
    hide GoodSite, Sane, Net.Reaches, Enabled, Next, Seen;
    match step
    case Arrives(socket, keys) => steps := ArrivalSimulates(env, site, sys, socket, keys);
    case Leaves(role) => steps := LeavingSimulates(env, site, sys, role);
    case Types(role, line) =>
      steps := [];
      TypingSimulates(env, site, sys, role, line);
      NoStep(env, Seen(site, sys));
    case ServerReads(role, n) => steps := ServerSimulates(env, site, sys, role, n);
    case ClientReads(role, n, coins) => steps := ReadsSimulates(env, site, past, sys, role, n, coins);
    case KeysReady(role, coins) => steps := KeysSimulates(env, site, past, sys, role, coins);
  }

  lemma {:induction false} RunSimulates(env: Env, site: Site, past: seq<Net.Step>, from: System, run: seq<Step>,
                                        to: System) returns (steps: seq<Net.Step>)
    requires GoodSite(site) && Sane(env, site, from) && Net.Reaches(env, Net.INITIAL, past, Seen(site, from))
    requires Reaches(env, site, from, run, to)
    ensures Sane(env, site, to) && Net.Reaches(env, Seen(site, from), steps, Seen(site, to))
    ensures AllCalm(run) ==> Quiet(steps)
    decreases |run|
  {
    hide GoodSite, Sane, Net.Reaches, Enabled, Next, Seen, IsCalm;
    if run == [] {
      steps := [];
      NoStep(env, Seen(site, from));
    } else {
      var mid := Next(env, site, from, run[0]);
      var first := StepSimulates(env, site, past, from, run[0]);
      RunsCompose(env, Net.INITIAL, past, Seen(site, from), first, Seen(site, mid));
      var rest := RunSimulates(env, site, past + first, mid, run[1..], to);
      RunsCompose(env, Seen(site, from), first, Seen(site, mid), rest, Seen(site, to));
      steps := first + rest;
      if AllCalm(run) {
        assert IsCalm(run[0]) && AllCalm(run[1..]);
      }
    }
  }

  // Every run of the programs from an empty server, in pieces of any size: what they stand for is reached by
  // a run of HonestNetwork. The server stays up, no connection is closed for a frame that is too large, no
  // client crashes, and only lines that their readers take are on the way.
  lemma ProgramsRefine(env: Env, site: Site, run: seq<Step>, sys: System) returns (steps: seq<Net.Step>)
    requires GoodSite(site) && Reaches(env, site, START, run, sys)
    ensures Net.Reaches(env, Net.INITIAL, steps, Seen(site, sys)) && Sane(env, site, sys)
  {
    hide GoodSite, Sane, Net.Reaches, Reaches, Seen;
    StartIsSane(env, site);
    NoStep(env, Net.INITIAL);
    steps := RunSimulates(env, site, [], START, run, sys);
  }

  predicate IsEstablished(sys: System, role: Role) {
    role in sys.programs && sys.programs[role].session.state == Established
  }

  // Agreement, down to the characters on the wire: whoever came and went, two ESTABLISHED programs hold the
  // same session ID and key.
  lemma ProgramsAgree(env: Env, site: Site, run: seq<Step>, sys: System)
    requires GoodSite(site) && Reaches(env, site, START, run, sys)
    requires IsEstablished(sys, ClientA) && IsEstablished(sys, ClientB)
    ensures var a, b := sys.programs[ClientA].session, sys.programs[ClientB].session;
            && a.sessionId.Some? && a.sessionId == b.sessionId
            && a.sessionKey.Some? && a.sessionKey == b.sessionKey
  {
    hide GoodSite, Sane, Net.Reaches, Reaches, MessagesIn, ObjectsIn, ItemsIn, Pending, LinesIn;
    var steps := ProgramsRefine(env, site, run, sys);
    HonestAgreement.AgreementUnderChurn(env, steps, Seen(site, sys));
  }

  // Nothing is on the way, and no keys are being generated.
  predicate AtRest(sys: System) {
    forall r: Role :: r in sys.programs && sys.programs[r].up == "" && sys.programs[r].down == ""
                      && sys.programs[r].client.generating.None?
  }

  lemma RestIsSettled(env: Env, site: Site, sys: System)
    requires Sane(env, site, sys) && AtRest(sys)
    ensures ClientA in Seen(site, sys).slots && ClientB in Seen(site, sys).slots
    ensures Convergence.Settled(Seen(site, sys))
  {
    hide UpLine, GreetingLine, DownLine, Harmless, Whole, Seen, Name, Server.ServerInv;
    RestingSlot(env, site, sys, ClientA);
    RestingSlot(env, site, sys, ClientB);
  }

  lemma RestingSlot(env: Env, site: Site, sys: System, role: Role)
    requires Sane(env, site, sys) && AtRest(sys)
    ensures role in Seen(site, sys).slots
    ensures Seen(site, sys).slots[role].outbox == [] && Seen(site, sys).slots[role].inbox == []
  {
    hide UpLine, GreetingLine, DownLine, Harmless, Whole, Name, SlotSane, Seen, Fits;
    SlotOf(env, site, sys, role);
    var p, s := sys.programs[role], sys.server.slots[role];
    assert s.buffer + p.up == s.buffer && p.client.buffer + p.down == p.client.buffer;
    OnlyPartLeft(s.buffer);
    OnlyPartLeft(p.client.buffer);
    NothingIsWhole();
  }

  // Two programs in any state that a run reaches: once nobody comes or goes, the primitives work and nothing is
  // on the way any more, both are ESTABLISHED if and only if no queue entangled a client before.
  lemma ProgramsConverge(env: Env, site: Site, past: seq<Step>, sys: System, run: seq<Step>, sys': System)
    requires GoodSite(site) && Reaches(env, site, START, past, sys)
    requires ClientA in sys.programs && ClientB in sys.programs
    requires Reaches(env, site, sys, run, sys') && AllCalm(run) && AtRest(sys')
    ensures var net := Seen(site, sys);
            IsEstablished(sys', ClientA) && IsEstablished(sys', ClientB) <==>
            !Queues.Entangles(net.history, net.slots[ClientA], net.slots[ClientB]) &&
            !Queues.Entangles(net.history, net.slots[ClientB], net.slots[ClientA])
  {
    hide GoodSite, Sane, Net.Reaches, Reaches, Queues.Entangles, MessagesIn, ObjectsIn, ItemsIn, Pending, LinesIn;
    var steps := ProgramsRefine(env, site, past, sys);
    var steps' := RunSimulates(env, site, steps, sys, run, sys');
    RestIsSettled(env, site, sys');
    Queues.ConvergesByQueues(env, steps, Seen(site, sys), steps', Seen(site, sys'));
  }

  // Two programs that just connected to an empty server.
  lemma FirstArrivals(env: Env, site: Site, one: Step, two: Step, sys: System)
    requires GoodSite(site) && one.Arrives? && two.Arrives? && Reaches(env, site, START, [one, two], sys)
    ensures Sane(env, site, sys)
    ensures Seen(site, sys) ==
      Net.AfterConnect(Net.AfterConnect(Net.INITIAL, ClientA, one.keys), ClientB, two.keys)
    ensures Net.Enabled(env, Net.INITIAL, Net.Connect(ClientA, one.keys))
    ensures Net.Enabled(env, Net.AfterConnect(Net.INITIAL, ClientA, one.keys), Net.Connect(ClientB, two.keys))
  {
    hide GoodSite, Sane, Enabled, Next, Net.Enabled, Net.AfterConnect, Seen;
    StartIsSane(env, site);
    assert [one, two][1..] == [two] && [two][1..] == [];
    var mid := Next(env, site, START, one);
    assert Reaches(env, site, mid, [two], sys);
    assert Next(env, site, mid, two) == sys;
    var first := ArrivalSimulates(env, site, START, one.socket, one.keys);
    var second := ArrivalSimulates(env, site, mid, two.socket, two.keys);
    SecondSlot(env, site, one);
    assert first == [Net.Connect(ClientA, one.keys)] && second == [Net.Connect(ClientB, two.keys)];
    assert first[1..] == [] && second[1..] == [];
    assert Seen(site, mid) == Net.AfterConnect(Net.INITIAL, ClientA, one.keys);
  }

  lemma SecondSlot(env: Env, site: Site, one: Step)
    requires one.Arrives? && Enabled(env, site, START, one)
    ensures Server.FreeSlot(START.server) == Some(ClientA)
    ensures Server.FreeSlot(Next(env, site, START, one).server) == Some(ClientB)
  {
    hide Net.GoodIdentity, LineOf;
  }

  // The purpose of it all: two programs that connect to an empty server, in any interleaving of what they and
  // the server read, in pieces of any size, and whatever the users type: once nothing is on the way any more
  // both are ESTABLISHED on the same session ID and key, and at no time before was either FAILED.
  lemma ProgramsComplete(env: Env, site: Site, one: Step, two: Step, sys: System, run: seq<Step>, sys': System)
    requires GoodSite(site) && one.Arrives? && two.Arrives? && Reaches(env, site, START, [one, two], sys)
    requires Reaches(env, site, sys, run, sys') && AllCalm(run)
    ensures ClientA in sys'.programs && ClientB in sys'.programs
    ensures var a, b := sys'.programs[ClientA].session, sys'.programs[ClientB].session;
            && a.state != Failed && b.state != Failed
            && (AtRest(sys') ==>
                  && a.state == Established && b.state == Established
                  && a.sessionId.Some? && a.sessionId == b.sessionId
                  && a.sessionKey.Some? && a.sessionKey == b.sessionKey)
  {
    hide GoodSite, Sane, Net.Reaches, Reaches, MessagesIn, ObjectsIn, ItemsIn, Pending, LinesIn, Net.Enabled,
         Net.AfterConnect, AllCalm, Convergence.Start, Convergence.Settled;
    FirstArrivals(env, site, one, two, sys);
    Convergence.TwoConnectsStart(env, Net.INITIAL, one.keys, two.keys);
    var past := ProgramsRefine(env, site, [one, two], sys);
    var steps := RunSimulates(env, site, past, sys, run, sys');
    Convergence.HandshakeConverges(env, Seen(site, sys), steps, Seen(site, sys'));
    if AtRest(sys') {
      RestIsSettled(env, site, sys');
    }
  }

  // ---- Coming to rest -----------------------------------------------------------------------------

  // Characters count more the further they are from being handled.
  function SlotLoad(sys: System, role: Role): nat {
    if role !in sys.programs then 0
    else
      var p := sys.programs[role];
      8 * |p.up| + 6 * |BufferOf(sys.server, role)| + 4 * |p.down| + 2 * |p.client.buffer|
      + (if p.client.generating.Some? then 1 else 0)
  }

  function Load(sys: System): nat {
    SlotLoad(sys, ClientA) + SlotLoad(sys, ClientB)
  }

  // Something is read, or the timer of key generation fires, and the primitives work.
  predicate Advances(step: Step) {
    match step
    case ServerReads(_, n) => n > 0
    case ClientReads(_, n, coins) => n > 0 && Working(coins)
    case KeysReady(_, coins) => Working(coins)
    case _ => false
  }

  predicate Lighter(site: Site, sys: System, sys': System) {
    var m, m' := Convergence.Measure(Seen(site, sys)), Convergence.Measure(Seen(site, sys'));
    m' < m || (m' == m && Load(sys') < Load(sys))
  }

  lemma {:induction false} QuietRunDecreases(env: Env, from: Net.Net, steps: seq<Net.Step>, to: Net.Net)
    requires HonestAgreement.NetInv(env, from) && Net.Reaches(env, from, steps, to) && Quiet(steps)
    ensures Convergence.Measure(to) + |steps| <= Convergence.Measure(from)
    decreases |steps|
  {
    hide HonestAgreement.NetInv, Net.Enabled, Net.Next, Convergence.Measure;
    if steps != [] {
      assert Convergence.IsQuiet(steps[0]) && Quiet(steps[1..]);
      ChurnConvergence.QuietStepLightens(env, from, steps[0]);
      HonestAgreement.StepKeepsInv(env, from, steps[0]);
      QuietRunDecreases(env, Net.Next(env, from, steps[0]), steps[1..], to);
    }
  }

  lemma {:induction false} UnsplitLength(lines: seq<string>, partial: string)
    ensures |Unsplit(lines, partial)| == |Unsplit(lines, "")| + |partial|
  {
    if lines != [] {
      UnsplitLength(lines[1..], partial);
    }
  }

  // What a chunk leaves in the buffer, and what it hands out, is what was there.
  lemma FedLength(buffer: string, chunk: string)
    ensures var (r, rest) := Fed(buffer, chunk, MAX_FRAME_SIZE);
            && |rest| <= |buffer| + |chunk|
            && (r.Success? ==> |Unsplit(r.value, "")| + |rest| == |buffer| + |chunk|)
  {
    hide SplitLines, Unsplit;
    UnsplitSplit(buffer + chunk);
    UnsplitLength(SplitLines(buffer + chunk).lines, SplitLines(buffer + chunk).partial);
  }

  lemma {:induction false} DrainKeeps(c: Queue.Client)
    ensures Queue.Drain(c).0.buffer == c.buffer && Queue.Drain(c).0.hasSession == c.hasSession
    decreases |c.queue|
  {
    hide Queue.ActionFor;
    if !(c.queue == [] || c.generating.Some? || c.crashed) {
      DrainKeeps(Queue.Handle(c.(queue := c.queue[1..]), c.queue[0]));
    }
  }

  // A client that writes nothing has less ahead of it.
  lemma ActingLightens(env: Env, sys: System, role: Role, client: Queue.Client, actions: seq<Queue.Action>,
                       coins: seq<Coins>, down: string)
    requires role in sys.programs && |actions| <= |coins|
    requires UpOf(AfterActing(env, sys, role, client, actions, coins, down), role) == UpOf(sys, role)
    requires var p := sys.programs[role];
             4 * |down| + 2 * |client.buffer| + (if client.generating.Some? then 1 else 0)
             < 4 * |p.down| + 2 * |p.client.buffer| + (if p.client.generating.Some? then 1 else 0)
    ensures Load(AfterActing(env, sys, role, client, actions, coins, down)) < Load(sys)
  {
    hide PerformAll;
    assert role == ClientA || role == ClientB;
  }

  lemma ReadingLightens(env: Env, site: Site, sys: System, role: Role, n: nat, coins: seq<Coins>)
    requires Enabled(env, site, sys, ClientReads(role, n, coins)) && n > 0
    requires UpOf(Next(env, site, sys, ClientReads(role, n, coins)), role) == UpOf(sys, role)
    ensures Load(Next(env, site, sys, ClientReads(role, n, coins))) < Load(sys)
  {
    hide Load, PerformAll, LawfulCoins, Queue.OnArrive;
    var p := sys.programs[role];
    var (client, actions) := Reading(env, site, p, n);
    ReadBuffer(env, site, p, n);
    ActingLightens(env, sys, role, client, actions, coins, p.down[n..]);
  }

  lemma ReadBuffer(env: Env, site: Site, p: Program, n: nat)
    requires n <= |p.down|
    ensures |Reading(env, site, p, n).0.buffer| <= |p.client.buffer| + n
  {
    hide Fed, Queue.Drain, Queue.Queued, Server.Calm, Server.AnyFatal;
    var (r, rest) := Fed(p.client.buffer, p.down[..n], MAX_FRAME_SIZE);
    FedLength(p.client.buffer, p.down[..n]);
    if r.Success? {
      var got := Queue.Queued(env, site.parse, Server.Calm(env, site.parse, r.value));
      DrainKeeps(p.client.(buffer := rest, queue := p.client.queue + got));
    }
  }

  lemma KeysLighten(env: Env, site: Site, sys: System, role: Role, coins: seq<Coins>)
    requires Sane(env, site, sys) && Enabled(env, site, sys, KeysReady(role, coins))
    requires Sane(env, site, Next(env, site, sys, KeysReady(role, coins)))
    requires UpOf(Next(env, site, sys, KeysReady(role, coins)), role) == UpOf(sys, role)
    ensures Load(Next(env, site, sys, KeysReady(role, coins))) < Load(sys)
  {
    hide Sane, Queue.Drain, Load, PerformAll, LawfulCoins, DownLine, GreetingLine, UpOk, Whole, Harmless;
    var p, sys' := sys.programs[role], Next(env, site, sys, KeysReady(role, coins));
    SlotOf(env, site, sys, role);
    SlotOf(env, site, sys', role);
    DrainKeeps(p.client.(hasSession := true, generating := None));
    var (client, actions) := Queue.OnKeysReady(p.client);
    assert sys'.programs[role].client == client;
    assert Queue.TakesIdentity(Name(role));
    ActingLightens(env, sys, role, client, actions, coins, p.down);
  }

  // A part of a stream that reaches the server weighs less on its way to the peer.
  lemma RoutingLightens(env: Env, site: Site, sys: System, role: Role, n: nat)
    requires GoodSite(site) && Sane(env, site, sys) && Enabled(env, site, sys, ServerReads(role, n)) && n > 0
    requires Peer(role) in sys.programs
    ensures Load(Next(env, site, sys, ServerReads(role, n))) < Load(sys)
  {
    hide GoodSite, Sane, Enabled, Next, Unsplit;
    var got, rest := Routed(env, site, sys, role, n);
    assert role == ClientA || role == ClientB;
  }

  // What the programs are after the server read a part of a stream, with a peer present.
  lemma Routed(env: Env, site: Site, sys: System, role: Role, n: nat) returns (got: seq<string>, rest: string)
    requires GoodSite(site) && Sane(env, site, sys) && Enabled(env, site, sys, ServerReads(role, n))
    requires Peer(role) in sys.programs
    ensures role in sys.programs && n <= |sys.programs[role].up|
    ensures var sys', peer := Next(env, site, sys, ServerReads(role, n)), Peer(role);
            var p, q := sys.programs[role], sys.programs[peer];
            && role in sys'.programs && sys'.programs[role] == p.(up := p.up[n..])
            && peer in sys'.programs && sys'.programs[peer] == q.(down := q.down + Unsplit(got, ""))
            && BufferOf(sys'.server, role) == rest && BufferOf(sys'.server, peer) == BufferOf(sys.server, peer)
            && |Unsplit(got, "")| + |rest| == |BufferOf(sys.server, role)| + n
  {
    hide GoodSite, Sane, DownOk, UpLine, Whole, Server.Handled, Server.OnData, LinesTo, Unsplit, LinesIn;
    var peer := Peer(role);
    SlotOf(env, site, sys, role);
    SlotOf(env, site, sys, peer);
    got, rest := ServerTakes(env, site, sys, role, n);
    var p, s := sys.programs[role], sys.server.slots[role];
    LinesAnswered(env, site, role, p.socket, Server.Occupant(sys.server, peer), got);
    TakenLength(env, site, sys, role, n, got, rest);
    NoLines();
    assert p.down + "" == p.down;
  }

  lemma NoLines()
    ensures Unsplit([], "") == ""
  {
  }

  lemma TakenLength(env: Env, site: Site, sys: System, role: Role, n: nat, got: seq<string>, rest: string)
    requires role in sys.programs && role in sys.server.slots && n <= |sys.programs[role].up|
    requires var p, s := sys.programs[role], sys.server.slots[role];
             got + LinesIn(rest + p.up[n..]) == LinesIn(s.buffer + p.up) && Whole(s.buffer + p.up)
             && Whole(rest + p.up[n..])
    ensures |Unsplit(got, "")| + |rest| == |sys.server.slots[role].buffer| + n
  {
    hide SplitLines, Unsplit, AllFit;
    var p, s := sys.programs[role], sys.server.slots[role];
    var later := LinesIn(rest + p.up[n..]);
    UnsplitSplit(rest + p.up[n..]);
    UnsplitSplit(s.buffer + p.up);
    UnsplitOfConcat(got, later);
  }

  lemma {:induction false} UnsplitOfConcat(xs: seq<string>, ys: seq<string>)
    ensures |Unsplit(xs + ys, "")| == |Unsplit(xs, "")| + |Unsplit(ys, "")|
  {
    if xs == [] {
      assert xs + ys == ys;
    } else {
      assert (xs + ys)[1..] == xs[1..] + ys && (xs + ys)[0] == xs[0];
      UnsplitOfConcat(xs[1..], ys);
    }
  }

  // With two programs connected, whatever is read and whenever keys get ready, what is left to do becomes less:
  // either the abstract measure, or at the same measure the weight of the characters on the way. So every
  // run of such steps ends.
  lemma ProgramsTire(env: Env, site: Site, past: seq<Step>, sys: System, step: Step)
    requires GoodSite(site) && Reaches(env, site, START, past, sys)
    requires ClientA in sys.programs && ClientB in sys.programs
    requires Enabled(env, site, sys, step) && Advances(step)
    ensures Lighter(site, sys, Next(env, site, sys, step))
  {
    hide GoodSite, Sane, Net.Reaches, Reaches, Enabled, Next, Seen, Load, Convergence.Measure;
    var before := ProgramsRefine(env, site, past, sys);
    ReachableInv(env, before, Seen(site, sys));
    var sys' := Next(env, site, sys, step);
    var steps;
    match step {
      case ServerReads(role, n) =>
        steps := ServerSimulates(env, site, sys, role, n);
        BothPresent(sys, Peer(role));
        RoutingLightens(env, site, sys, role, n);
      case ClientReads(role, n, coins) =>
        steps := ReadsSimulates(env, site, before, sys, role, n, coins);
        if steps == [] {
          ReadingLightens(env, site, sys, role, n, coins);
        }
      case KeysReady(role, coins) =>
        steps := KeysSimulates(env, site, before, sys, role, coins);
        if steps == [] {
          KeysLighten(env, site, sys, role, coins);
        }
    }
    QuietRunDecreases(env, Seen(site, sys), steps, Seen(site, sys'));
  }

  lemma BothPresent(sys: System, role: Role)
    requires ClientA in sys.programs && ClientB in sys.programs
    ensures role in sys.programs
  {
    assert role == ClientA || role == ClientB;
  }

  // The primitives can serve whatever a client would do next.
  predicate Served(env: Env, site: Site, sys: System, role: Role, coins: seq<Coins>)
    requires role in sys.programs
  {
    var p := sys.programs[role];
    && Working(coins)
    && Lawful(env, Started(sys, role), Reading(env, site, p, |p.down|).1, coins)
    && (p.client.generating.Some? ==> Lawful(env, Started(sys, role), Queue.OnKeysReady(p.client).1, coins))
  }

  // As long as two programs are not at rest something can be read, or keys are about to be ready.
  lemma ProgramsNotStuck(env: Env, site: Site, past: seq<Step>, sys: System, coins: map<Role, seq<Coins>>)
    requires GoodSite(site) && Reaches(env, site, START, past, sys)
    requires ClientA in sys.programs && ClientB in sys.programs && !AtRest(sys)
    requires forall r: Role :: r in coins && (r in sys.programs ==> Served(env, site, sys, r, coins[r]))
    ensures exists step :: Enabled(env, site, sys, step) && Advances(step)
  {
    hide GoodSite, Reaches, Net.Reaches, Seen, Sane, Served, Enabled;
    var steps := ProgramsRefine(env, site, past, sys);
    var r: Role :| !(r in sys.programs && sys.programs[r].up == "" && sys.programs[r].down == ""
                     && sys.programs[r].client.generating.None?);
    BothPresent(sys, r);
    var step := SlotNotStuck(env, site, sys, r, coins[r]);
  }

  lemma SlotNotStuck(env: Env, site: Site, sys: System, role: Role, coins: seq<Coins>) returns (step: Step)
    requires Sane(env, site, sys) && role in sys.programs && Served(env, site, sys, role, coins)
    requires var p := sys.programs[role];
             p.up != "" || p.down != "" || p.client.generating.Some?
    ensures Enabled(env, site, sys, step) && Advances(step)
  {
    hide Sane, Lawful, Queue.OnArrive, Queue.OnKeysReady, Working;
    NotCrashed(env, site, sys, role);
    var p := sys.programs[role];
    step := if p.up != "" then ServerReads(role, |p.up|)
            else if p.down != "" then ClientReads(role, |p.down|, coins) else KeysReady(role, coins);
  }

  lemma NotCrashed(env: Env, site: Site, sys: System, role: Role)
    requires Sane(env, site, sys) && role in sys.programs
    ensures !sys.server.down && role in sys.server.slots && !sys.programs[role].client.crashed
  {
    hide UpOk, DownLine, GreetingLine, Harmless, Whole, LinesIn, Server.ServerInv;
    assert SlotSane(env, site, sys, role);
  }

  lemma ReachableInv(env: Env, steps: seq<Net.Step>, net: Net.Net)
    requires Net.Reaches(env, Net.INITIAL, steps, net)
    ensures HonestAgreement.NetInv(env, net)
  {
    hide HonestAgreement.NetInv, Net.Reaches;
    var authors := Provenance.Reachable(env, steps, net);
  }

  // ---- Such a site exists -----------------------------------------------------------------------

  // The texts of src/server.js; isNew tells the client that just connected from the one that stayed.
  function Wording(isNew: Server.Write -> bool, w: Server.Write): string {
    match w.packet
    case ConnectedAs(role) => Queue.GREETING + Name(role)
    case PeerJoined(role) => Name(role) + (if isNew(w) then " is already connected." else " has joined the chat.")
    case PeerLeft(role) => Name(role) + " has disconnected."
    case Undelivered(role) => Name(role) + " is not connected. Message not delivered."
    case _ => ""
  }

  lemma WordingAnnounces(isNew: Server.Write -> bool, w: Server.Write)
    ensures Announces(w, Wording(isNew, w))
  {
  }

  lemma SourceIsGood(isNew: Server.Write -> bool)
    ensures GoodSite(Site(line => if Decode(line).Some? then Some(Obj(Decode(line).value)) else None,
                          w => Wording(isNew, w)))
  {
    hide Decode, Wording, Announces, ParsesFlat;
    DecodeParsesFlat();
    forall w: Server.Write
      ensures Announces(w, Wording(isNew, w))
    {
      WordingAnnounces(isNew, w);
    }
  }
}
