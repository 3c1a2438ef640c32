// The condition of ChurnConvergence, read off the queues: no client has to be run forward to see
// whether it is entangled.
module EntangledQueues {
  import opened Wrappers
  import opened Crypto
  import opened Messages
  import opened Sessions
  import opened Evidence
  import opened HonestNetwork
  import opened HonestAgreement
  import opened Provenance
  import opened ChurnConvergence
  import Convergence
  import S = Sketches
  import P = Prospects

  // ---- Lines that were written ------------------------------------------------------------------

  // A signed message of an earlier session.
  ghost predicate Stale(h: History, own: Identity, m: Msg) {
    !m.Hello? && !KeyFor(h, own.encryption, m) && !AckFor(h, own.signing, m)
  }

  lemma {:induction false} TokenAt(h: History, reader: Identity, ms: seq<Msg>, k: nat)
    requires k < |ms|
    ensures SketchedLines(h, reader, ms)[k] == TokenOf(h, reader, ms[k])
    ensures SketchedLines(h, reader, ms)[k] == S.Greeting <==> ms[k].Hello?
    ensures SketchedLines(h, reader, ms)[k] == S.Sealed(false) <==> Stale(h, reader, ms[k])
  {
    hide KeyFor, AckFor;
    if k > 0 {
      TokenAt(h, reader, ms[1..], k - 1);
    }
  }

  lemma {:induction false} EntriesAreLines(h: History, own: Identity, inbox: seq<Item>)
    ensures S.TokensOf(SketchedInbox(h, own, inbox)) == SketchedLines(h, own, Convergence.Lines(inbox))
  {
    hide TokenOf;
    if inbox != [] {
      EntriesAreLines(h, own, inbox[1..]);
      assert SketchedInbox(h, own, inbox)[1..] == SketchedInbox(h, own, inbox[1..]);
      var rest := Convergence.Lines(inbox[1..]);
      if inbox[0].Relayed? {
        assert ([inbox[0].m] + rest)[1..] == rest;
      } else {
        assert [] + rest == rest;
      }
    }
  }

  // A HELLO followed by a signed message of an earlier session, or such a message alone where the HELLO
  // has been heard.
  ghost predicate HoldsStale(h: History, s: Session, flight: seq<Msg>) {
    || s.state == Failed
    || (s.state in {HelloExchanged, KeySent} && exists j :: 0 <= j < |flight| && Stale(h, s.identity, flight[j]))
    || (s.state == NoSession &&
        exists i, j :: 0 <= i < j < |flight| && flight[i].Hello? && Stale(h, s.identity, flight[j]))
  }

  lemma TangledInFlight(h: History, s: Session, x: S.Half, flight: seq<Msg>)
    requires Inv(s) && x.phase == PhaseOf(s) && x.coming == SketchedLines(h, s.identity, flight)
    ensures S.Tangled(x) <==> HoldsStale(h, s, flight)
  {
    hide SketchedLines, Stale;
    forall k | 0 <= k < |flight|
      ensures x.coming[k] == S.Greeting <==> flight[k].Hello?
      ensures x.coming[k] == S.Sealed(false) <==> Stale(h, s.identity, flight[k])
    {
      TokenAt(h, s.identity, flight, k);
    }
  }

  // ---- Signed messages still to be written ------------------------------------------------------

  // The part of an inbox that the present peer filled.
  function Visible(inbox: seq<Item>): (r: seq<Item>)
    ensures !Departed(r) && (!Departed(inbox) ==> r == inbox)
  {
    if Departed(inbox) then Visible(inbox[1..]) else inbox
  }

  predicate IsHelloLine(item: Item) {
    item.Relayed? && item.m.Hello?
  }

  predicate IsSignedLine(item: Item) {
    item.Relayed? && !item.m.Hello?
  }

  // The session has heard a HELLO before the item at k.
  predicate HeardBefore(s: Session, part: seq<Item>, k: nat)
    requires k <= |part|
  {
    s.state == HelloExchanged || exists i :: 0 <= i < k && IsHelloLine(part[i])
  }

  // Of the signed messages that follow a HELLO the first is at j, and its key was wrapped for this client.
  ghost predicate AcknowledgesAt(h: History, s: Session, part: seq<Item>, j: nat) {
    && j < |part| && IsSignedLine(part[j]) && !Stale(h, s.identity, part[j].m) && HeardBefore(s, part, j)
    && forall k :: 0 <= k < j && IsSignedLine(part[k]) ==> !HeardBefore(s, part, k)
  }

  // A session that handles this much of its inbox signs a message on the way: Client A if it finds a
  // HELLO, Client B if the first signed message it finds after one is its own.
  ghost predicate Signs(h: History, s: Session, part: seq<Item>) {
    if s.role == ClientA then s.state == NoSession && exists i :: 0 <= i < |part| && IsHelloLine(part[i])
    else s.state in {NoSession, HelloExchanged} && exists j: nat :: AcknowledgesAt(h, s, part, j)
  }

  // It does so before the first departure it has not handled.
  ghost predicate SignsFirst(h: History, c: Client) {
    exists p: nat :: p < |c.inbox| && c.inbox[p] == PeerLeft && !Departed(c.inbox[..p])
                     && Signs(h, c.session, c.inbox[..p])
  }

  // It does so between two departures it has not handled.
  ghost predicate SignsLater(h: History, c: Client) {
    exists p: nat, q: nat :: SignsBetween(h, c, p, q)
  }

  ghost predicate SignsBetween(h: History, c: Client, p: nat, q: nat) {
    && p < q < |c.inbox| && c.inbox[p] == PeerLeft && c.inbox[q] == PeerLeft && !Departed(c.inbox[p + 1..q])
    && Signs(h, Fresh(c.session.role, c.session.identity), c.inbox[p + 1..q])
  }

  // ---- The same of a sketch ---------------------------------------------------------------------

  lemma {:induction false} EntryAt(h: History, own: Identity, inbox: seq<Item>, k: nat)
    requires k < |inbox|
    ensures SketchedInbox(h, own, inbox)[k] == EntryOf(h, own, inbox[k])
  {
    hide EntryOf;
    if k > 0 {
      EntryAt(h, own, inbox[1..], k - 1);
    }
  }

  lemma EntriesSlice(h: History, own: Identity, inbox: seq<Item>, p: nat, q: nat)
    requires p <= q <= |inbox|
    ensures SketchedInbox(h, own, inbox[p..q]) == SketchedInbox(h, own, inbox)[p..q]
  {
    hide EntryOf, SketchedInbox;
    forall k | 0 <= k < q - p
      ensures SketchedInbox(h, own, inbox[p..q])[k] == SketchedInbox(h, own, inbox)[p..q][k]
    {
      EntryAt(h, own, inbox[p..q], k);
      EntryAt(h, own, inbox, p + k);
    }
  }

  // What an item is, seen in its entry.
  lemma EntryKinds(h: History, own: Identity, inbox: seq<Item>, k: nat)
    requires k < |inbox|
    ensures var e := SketchedInbox(h, own, inbox)[k];
            && (e == S.Leaves <==> inbox[k] == PeerLeft)
            && (e == S.Line(S.Greeting) <==> IsHelloLine(inbox[k]))
            && (P.IsSealed(e) <==> IsSignedLine(inbox[k]))
            && (e == S.Line(S.Sealed(true)) <==> IsSignedLine(inbox[k]) && !Stale(h, own, inbox[k].m))
  {
    hide SketchedInbox, KeyFor, AckFor;
    EntryAt(h, own, inbox, k);
  }

  lemma HeardSketched(h: History, s: Session, part: seq<Item>, k: nat)
    requires k <= |part| && s.role == ClientB && s.state in {NoSession, HelloExchanged}
    ensures P.HeardBy(PhaseOf(s), SketchedInbox(h, s.identity, part), k) <==> HeardBefore(s, part, k)
  {
    hide SketchedInbox;
    var es := SketchedInbox(h, s.identity, part);
    forall i | 0 <= i < |part|
      ensures es[i] == S.Line(S.Greeting) <==> IsHelloLine(part[i])
    {
      EntryKinds(h, s.identity, part, i);
    }
    if HeardBefore(s, part, k) && s.state == NoSession {
      var i :| 0 <= i < k && IsHelloLine(part[i]);
      assert es[..k][i] == S.Line(S.Greeting);
    }
  }

  lemma SignsSketched(h: History, s: Session, part: seq<Item>, current: bool)
    requires Inv(s)
    ensures P.Seals(s.role, S.Settle(PhaseOf(s), current), SketchedInbox(h, s.identity, part)) <==> Signs(h, s, part)
  {
    hide SketchedInbox, Stale, HeardBefore, P.HeardBy;
    var es := SketchedInbox(h, s.identity, part);
    forall k | 0 <= k < |part|
      ensures es[k] == S.Line(S.Greeting) <==> IsHelloLine(part[k])
      ensures P.IsSealed(es[k]) <==> IsSignedLine(part[k])
      ensures es[k] == S.Line(S.Sealed(true)) <==> IsSignedLine(part[k]) && !Stale(h, s.identity, part[k].m)
    {
      EntryKinds(h, s.identity, part, k);
    }
    if s.role == ClientB && s.state in {NoSession, HelloExchanged} {
      forall j: nat
        ensures P.SealsAt(PhaseOf(s), es, j) <==> AcknowledgesAt(h, s, part, j)
      {
        AcknowledgesSketched(h, s, part, j);
      }
    }
  }

  lemma AcknowledgesSketched(h: History, s: Session, part: seq<Item>, j: nat)
    requires s.role == ClientB && s.state in {NoSession, HelloExchanged}
    ensures P.SealsAt(PhaseOf(s), SketchedInbox(h, s.identity, part), j) <==> AcknowledgesAt(h, s, part, j)
  {
    hide SketchedInbox, Stale, HeardBefore, P.HeardBy, P.IsSealed, IsHelloLine;
    var es := SketchedInbox(h, s.identity, part);
    forall k: nat | k < |part|
      ensures P.IsSealed(es[k]) <==> IsSignedLine(part[k])
      ensures es[k] == S.Line(S.Sealed(true)) <==> IsSignedLine(part[k]) && !Stale(h, s.identity, part[k].m)
      ensures P.HeardBy(PhaseOf(s), es, k) <==> HeardBefore(s, part, k)
    {
      EntryKinds(h, s.identity, part, k);
      HeardSketched(h, s, part, k);
    }
  }

  lemma PartSketched(h: History, s: Session, inbox: seq<Item>, p: nat, q: nat, current: bool)
    requires Inv(s) && p <= q <= |inbox|
    ensures var es := SketchedInbox(h, s.identity, inbox);
            && (S.Leaves in es[p..q] <==> Departed(inbox[p..q]))
            && (P.Seals(s.role, S.Settle(PhaseOf(s), current), es[p..q]) <==> Signs(h, s, inbox[p..q]))
  {
    hide SketchedInbox, Signs, P.Seals;
    EntriesSlice(h, s.identity, inbox, p, q);
    SignsSketched(h, s, inbox[p..q], current);
    EntriesLeave(h, s.identity, inbox[p..q]);
  }

  lemma FirstSketched(h: History, c: Client, current: bool)
    requires Inv(c.session)
    ensures var phase := S.Settle(PhaseOf(c.session), current);
            P.SealsFirst(c.session.role, phase, SketchedInbox(h, c.session.identity, c.inbox)) <==> SignsFirst(h, c)
  {
    hide SketchedInbox, Signs, P.Seals, Departed;
    var es := SketchedInbox(h, c.session.identity, c.inbox);
    forall p: nat | p < |c.inbox|
      ensures es[p] == S.Leaves <==> c.inbox[p] == PeerLeft
      ensures S.Leaves in es[..p] <==> Departed(c.inbox[..p])
      ensures P.Seals(c.session.role, S.Settle(PhaseOf(c.session), current), es[..p]) <==>
                Signs(h, c.session, c.inbox[..p])
    {
      EntryKinds(h, c.session.identity, c.inbox, p);
      PartSketched(h, c.session, c.inbox, 0, p, current);
      assert es[0..p] == es[..p] && c.inbox[0..p] == c.inbox[..p];
    }
  }

  lemma LaterSketched(h: History, c: Client)
    ensures P.SealsLater(c.session.role, SketchedInbox(h, c.session.identity, c.inbox)) <==> SignsLater(h, c)
  {
    hide SketchedInbox, P.SealsBetween, SignsBetween;
    var es := SketchedInbox(h, c.session.identity, c.inbox);
    forall p: nat, q: nat
      ensures P.SealsBetween(c.session.role, es, p, q) <==> SignsBetween(h, c, p, q)
    {
      BetweenSketched(h, c, p, q);
    }
  }

  lemma BetweenSketched(h: History, c: Client, p: nat, q: nat)
    ensures P.SealsBetween(c.session.role, SketchedInbox(h, c.session.identity, c.inbox), p, q)
            <==> SignsBetween(h, c, p, q)
  {
    hide SketchedInbox, Signs, P.Seals, Departed;
    if p < q < |c.inbox| {
      EntryKinds(h, c.session.identity, c.inbox, p);
      EntryKinds(h, c.session.identity, c.inbox, q);
      PartSketched(h, Fresh(c.session.role, c.session.identity), c.inbox, p + 1, q, true);
    }
  }

  // ---- Entangled, exactly -----------------------------------------------------------------------

  // The client's session once its departures are handled.
  function Standing(c: Client): Session {
    if Departed(c.inbox) then Fresh(c.session.role, c.session.identity) else c.session
  }

  // The lines written for a client by its present peer's side: what a predecessor of it was meant to get included.
  function WrittenFor(c: Client, d: Client): seq<Msg> {
    Convergence.Lines(Visible(c.inbox)) + d.outbox
  }

  predicate HasHello(ms: seq<Msg>) {
    exists i :: 0 <= i < |ms| && ms[i].Hello?
  }

  // The lines that were written, or the parts of the peer's inbox that it has yet to get through.
  ghost predicate Entangles(h: History, c: Client, d: Client) {
    var s := Standing(c);
    || HoldsStale(h, s, WrittenFor(c, d))
    || (s.state in {HelloExchanged, KeySent} && (SignsFirst(h, d) || SignsLater(h, d)))
    || (s.state == NoSession &&
        (SignsLater(h, d) || (SignsFirst(h, d) && (!d.session.helloSent || HasHello(WrittenFor(c, d))))))
  }

  // In every state: a client is entangled exactly if its queues and its peer's say so.
  lemma EntangledExactly(net: Net, role: Role)
    requires role in net.slots && Peer(role) in net.slots
    requires Inv(net.slots[role].session) && Inv(net.slots[Peer(role)].session)
    ensures Entangled(net, role) <==> Entangles(net.history, net.slots[role], net.slots[Peer(role)])
  {
    var c, d, h := net.slots[role], net.slots[Peer(role)], net.history;
    var x, y := SketchAt(net, role), SketchAt(net, Peer(role));
    hide Stale, P.SealsFirst, P.SealsLater, SignsFirst, SignsLater, S.Tangled, HoldsStale, SketchedInbox, SketchedLines,
         SketchOf, S.HalfOf, P.Ahead, Visible, Inv, WrittenFor, HasHello;
    SketchFacts(h, c, d);
    P.TangledExactly(x, y);
    FirstSketched(h, d, !Departed(d.inbox));
    LaterSketched(h, d);
    AheadSketched(h, c, d);
    var half := S.HalfOf(x, y).(coming := P.Ahead(x, y));
    StandingInv(c);
    TangledInFlight(h, Standing(c), half, WrittenFor(c, d));
    HelloAhead(h, c.session.identity, WrittenFor(c, d));
  }

  lemma StandingInv(c: Client)
    requires Inv(c.session)
    ensures Inv(Standing(c)) && Standing(c).identity == c.session.identity
  {
  }

  // What of the sketches matters here.
  lemma SketchFacts(h: History, c: Client, d: Client)
    requires Inv(d.session)
    ensures var x, y := SketchOf(h, c, d.session.identity), SketchOf(h, d, c.session.identity);
            && S.HalfOf(x, y).phase == PhaseOf(Standing(c))
            && y.role == d.session.role && y.sent == d.session.helloSent
            && y.phase == S.Settle(PhaseOf(d.session), !Departed(d.inbox)) && (y.phase != S.Idle ==> y.sent)
            && y.inbox == SketchedInbox(h, d.session.identity, d.inbox)
  {
    hide SketchedInbox, SketchedLines, S.TokensOf, S.Present, S.Prospect;
    EntriesLeave(h, c.session.identity, c.inbox);
  }

  // With no departure left to handle on either side, entangled means just that of the lines in flight.
  lemma EntangledInFlight(net: Net, role: Role)
    requires role in net.slots && Peer(role) in net.slots && Inv(net.slots[role].session)
    requires !Departed(net.slots[role].inbox) && !Departed(net.slots[Peer(role)].inbox)
    ensures Entangled(net, role) <==>
      HoldsStale(net.history, net.slots[role].session, Convergence.InFlight(net.slots[Peer(role)], net.slots[role]))
  {
    hide KeyFor, AckFor, Stale, EntryOf;
    var c, d, h := net.slots[role], net.slots[Peer(role)], net.history;
    var own := c.session.identity;
    var flight := Convergence.InFlight(d, c);
    EntriesLeave(h, own, c.inbox);
    EntriesLeave(h, d.session.identity, d.inbox);
    EntriesAreLines(h, own, c.inbox);
    TokensConcat(h, own, Convergence.Lines(c.inbox), d.outbox);
    var x := S.HalfOf(SketchAt(net, role), SketchAt(net, Peer(role)));
    assert x.coming == SketchedLines(h, own, flight);
    TangledInFlight(h, c.session, x, flight);
  }

  // Two clients in the slots of any reachable state: when nothing is left to relay or deliver both are
  // ESTABLISHED if and only if no queue entangles a client now.
  lemma ConvergesByQueues(env: Env, past: seq<Step>, net: Net, steps: seq<Step>, net': Net)
    requires Reaches(env, INITIAL, past, net) && ClientA in net.slots && ClientB in net.slots
    requires Convergence.AllQuiet(steps) && Reaches(env, net, steps, net')
    ensures ClientA in net'.slots && ClientB in net'.slots
    ensures Convergence.Settled(net') ==>
      (BothEstablished(net') <==>
       !Entangles(net.history, net.slots[ClientA], net.slots[ClientB]) &&
       !Entangles(net.history, net.slots[ClientB], net.slots[ClientA]))
  {
    InitialCoupled(env);
    hide NetInv, NetTraced, Coupled, Reaches, Entangled, Entangles, Inv;
    var authors := RunCoupled(env, INITIAL, Authors([], []), past, net);
    ConvergesExactly(env, past, net, steps, net');
    OccupantInv(env, net, ClientA);
    OccupantInv(env, net, ClientB);
    EntangledExactly(net, ClientA);
    EntangledExactly(net, ClientB);
  }

  lemma HelloAhead(h: History, reader: Identity, ms: seq<Msg>)
    ensures S.Greeting in SketchedLines(h, reader, ms) <==> HasHello(ms)
  {
    hide SketchedLines, Stale;
    forall k | 0 <= k < |ms|
      ensures SketchedLines(h, reader, ms)[k] == S.Greeting <==> ms[k].Hello?
    {
      TokenAt(h, reader, ms, k);
    }
  }

  lemma {:induction false} PresentSketched(h: History, own: Identity, inbox: seq<Item>)
    ensures S.Present(SketchedInbox(h, own, inbox)) == SketchedInbox(h, own, Visible(inbox))
  {
    hide EntryOf;
    EntriesLeave(h, own, inbox);
    if Departed(inbox) {
      PresentSketched(h, own, inbox[1..]);
    }
  }

  lemma AheadSketched(h: History, c: Client, d: Client)
    ensures P.Ahead(SketchOf(h, c, d.session.identity), SketchOf(h, d, c.session.identity))
            == SketchedLines(h, c.session.identity, WrittenFor(c, d))
  {
    hide EntryOf, TokenOf, SketchedInbox, SketchedLines, S.TokensOf, Visible, S.Present;
    var own := c.session.identity;
    PresentSketched(h, own, c.inbox);
    EntriesAreLines(h, own, Visible(c.inbox));
    TokensConcat(h, own, Convergence.Lines(Visible(c.inbox)), d.outbox);
  }

  // When a slot is refilled, the client that stayed is not entangled. The newcomer is exactly if a HELLO
  // followed by a signed message waits in that client's outbox or will come about while it catches up
  // with the departures; if it has none to handle, exactly if its outbox holds them.
  lemma RefillExactly(env: Env, past: seq<Step>, net: Net, role: Role, id: Identity)
    requires Reaches(env, INITIAL, past, net) && Enabled(env, net, Connect(role, id)) && Peer(role) in net.slots
    ensures var net' := AfterConnect(net, role, id);
            && role in net'.slots && Peer(role) in net'.slots && !Entangled(net', Peer(role))
            && var d := net'.slots[Peer(role)];
            && (Entangled(net', role) <==>
                || HelloThenSigned(d.outbox)
                || SignsLater(net.history, d)
                || (SignsFirst(net.history, d) && (!d.session.helloSent || HasHello(d.outbox))))
            && (!Departed(d.inbox) ==> (Entangled(net', role) <==> HelloThenSigned(d.outbox)))
  {
    InitialCoupled(env);
    hide NetInv, NetTraced, Coupled, Reaches, GoodIdentity, S.HalfOf, SketchedLines, SketchedInbox, S.Present,
         SignsFirst,
         SignsLater, Stale, Entangled, Inv;
    var authors := RunCoupled(env, INITIAL, Authors([], []), past, net);
    NewcomerFacts(env, net, role, id);
    StayedFacts(env, net, role, id);
    var net' := AfterConnect(net, role, id);
    var c, d := net'.slots[role], net'.slots[Peer(role)];
    EntangledExactly(net', role);
    assert Visible(c.inbox) == [PeerJoined];
    assert [PeerJoined][1..] == [];
    assert Convergence.Lines([PeerJoined]) == [];
    assert WrittenFor(c, d) == d.outbox;
    if !Departed(d.inbox) {
      NothingFirst(net.history, d);
    }
  }

  lemma StayedFacts(env: Env, net: Net, role: Role, id: Identity)
    requires NetInv(env, net) && Enabled(env, net, Connect(role, id)) && Peer(role) in net.slots
    ensures var net' := AfterConnect(net, role, id);
            && role in net'.slots && Peer(role) in net'.slots && net'.history == net.history
            && net'.slots[role] == Client(Fresh(role, id), [], [PeerJoined])
            && Inv(net'.slots[role].session) && Inv(net'.slots[Peer(role)].session)
  {
    hide Sound, HistoryOk, PairOk, SessionRecorded, SessionKeysOk, InboxOk, OutboxOk, GoodIdentity;
    PartsOfSlot(env, net, Peer(role));
    assert [] + [PeerJoined] == [PeerJoined];
  }

  // No line is meant for the newcomer, and its own are not written yet.
  lemma NewcomerFacts(env: Env, net: Net, role: Role, id: Identity)
    requires NetInv(env, net) && Coupled(net) && Enabled(env, net, Connect(role, id)) && Peer(role) in net.slots
    ensures var net' := AfterConnect(net, role, id);
            && role in net'.slots && Peer(role) in net'.slots && !Entangled(net', Peer(role))
            && var outbox := net'.slots[Peer(role)].outbox;
               forall k :: 0 <= k < |outbox| ==> (Stale(net'.history, id, outbox[k]) <==> !outbox[k].Hello?)
  {
    hide NetInv, Coupled, GoodIdentity, S.HalfOf, SketchedLines, SketchedInbox, S.Prospect, Stale;
    NewcomerMeets(env, net, role, id);
    var net' := AfterConnect(net, role, id);
    var outbox := net'.slots[Peer(role)].outbox;
    var n := S.HalfOf(SketchAt(net', role), SketchAt(net', Peer(role)));
    assert net'.slots[role].session.identity == id;
    forall k | 0 <= k < |outbox|
      ensures Stale(net'.history, id, outbox[k]) <==> !outbox[k].Hello?
    {
      TokenAt(net'.history, id, outbox, k);
      assert SketchedLines(net'.history, id, outbox)[k] in n.coming;
    }
  }

  // A HELLO followed by a signed message.
  predicate HelloThenSigned(ms: seq<Msg>) {
    exists i, j :: 0 <= i < j < |ms| && ms[i].Hello? && !ms[j].Hello?
  }

  lemma NothingFirst(h: History, d: Client)
    requires !Departed(d.inbox)
    ensures !SignsFirst(h, d) && !SignsLater(h, d)
  {
  }
}
