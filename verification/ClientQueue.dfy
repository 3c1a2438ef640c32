// The order in which a client works through what it receives, as functions on values
// (src/client.js:46-49, 137-215). ClientMachines.ClientMachine is the class they specify.
module ClientQueue {
  import opened Wrappers
  import opened Text
  import opened Crypto
  import opened Messages
  import opened Framing
  import opened Relaying
  import opened Verdicts
  import RelayRuns

  const GREETING := "Connected as "

  // What handling a message does, seen from the queue and the session.
  datatype Action =
    | AssignIdentity(id: string)   // starts key generation
    | PeerIsHere | PeerIsGone      // onPeerJoined, onPeerLeft of the session
    | ToSession(message: Object)   // handleMessage of the session
    | Show(message: Object)
    | Ignore(message: Object)      // a handshake message before there is a session

  function ActionFor(o: Object, hasSession: bool): Action {
    var kind := TextOf(o, "type");
    if kind == "SYSTEM" then
      if GREETING <= TextOf(o, "text") then AssignIdentity(TextOf(o, "text")[|GREETING|..])
      else if TextOf(o, "event") == "PEER_JOINED" then PeerIsHere
      else if TextOf(o, "event") == "PEER_LEFT" then PeerIsGone
      else Show(o)
    else if IsHandshakeType(kind) then if hasSession then ToSession(o) else Ignore(o)
    else Show(o)
  }

  // Names every JavaScript object inherits, which the lookup in the PeerSession constructor finds too.
  const INHERITED := ["constructor", "__defineGetter__", "__defineSetter__", "hasOwnProperty", "__lookupGetter__",
                      "__lookupSetter__", "isPrototypeOf", "propertyIsEnumerable", "toString", "valueOf", "__proto__",
                      "toLocaleString"]

  // Whether the PeerSession constructor takes the identity; otherwise it throws.
  predicate TakesIdentity(id: string) {
    id == "Client A" || id == "Client B" || id in INHERITED
  }

  // Exactly the two identities and the names that every object has.
  lemma IdentitiesExactly(id: string)
    ensures TakesIdentity(id) <==>
      id in {"Client A", "Client B", "constructor", "hasOwnProperty", "isPrototypeOf", "propertyIsEnumerable",
             "toString", "valueOf", "toLocaleString", "__proto__", "__defineGetter__", "__defineSetter__",
             "__lookupGetter__", "__lookupSetter__"}
  {
  }

  // generating holds the identity that keys are being generated for. A crash is an exception nobody
  // catches: the process ends.
  datatype Client = Client(
    buffer: string,
    queue: seq<Object>,
    generating: Option<string>,
    hasSession: bool,
    closing: bool,
    crashed: bool)

  const INITIAL := Client("", [], None, false, false, false)

  datatype Event = Arrive(chunk: string) | KeysReady

  // A chat message is shown with its sender, which validation does not look at.
  predicate Unshowable(o: Object) {
    TextOf(o, "type") == "CHAT" && "sender" in o && !Printable(o["sender"])
  }

  // handleMessage; onPeerJoined and onPeerLeft are called on the session whether or not there is one.
  function Handle(c: Client, o: Object): Client {
    match ActionFor(o, c.hasSession)
    case AssignIdentity(id) => c.(generating := Some(id))
    case PeerIsHere => c.(crashed := !c.hasSession)
    case PeerIsGone => c.(crashed := !c.hasSession)
    case Show(_) => c.(crashed := Unshowable(o))
    case _ => c
  }

  // A SYSTEM message that assigns an identity.
  predicate AssignsName(o: Object, id: string) {
    IsOneOf(o, "type", {"SYSTEM"}) && IsOneOf(o, "text", {"Connected as " + id})
  }

  // A SYSTEM message that assigns none and tells of the peer.
  ghost predicate TellsOfPeer(o: Object, event: string) {
    IsOneOf(o, "type", {"SYSTEM"}) && (forall id :: !AssignsName(o, id)) && IsOneOf(o, "event", {event})
  }

  // What a message leads to, each action under its own condition.
  lemma ActionsExactly(o: Object, hasSession: bool)
    ensures var a := ActionFor(o, hasSession);
            && (forall id :: a == AssignIdentity(id) <==> AssignsName(o, id))
            && (a == PeerIsHere <==> TellsOfPeer(o, "PEER_JOINED"))
            && (a == PeerIsGone <==> TellsOfPeer(o, "PEER_LEFT"))
            && (a == ToSession(o) <==> IsHandshakeObject(o) && hasSession)
            && (a == Ignore(o) <==> IsHandshakeObject(o) && !hasSession)
            && (a == Show(o) <==>
                && (forall id :: !AssignsName(o, id)) && !TellsOfPeer(o, "PEER_JOINED") && !TellsOfPeer(o, "PEER_LEFT")
                && !IsHandshakeObject(o))
  {
    var text := TextOf(o, "text");
    if IsOneOf(o, "type", {"SYSTEM"}) && GREETING <= text {
      assert GREETING + text[|GREETING|..] == text;
      assert AssignsName(o, text[|GREETING|..]);
    }
    forall id | AssignsName(o, id)
      ensures GREETING <= text && text[|GREETING|..] == id
    {
    }
  }

  // What handling a message does to the client: keys are generated for the name assigned, and the process ends
  // exactly for a notice of the peer without a session or a chat message whose sender has no text.
  lemma HandleExactly(c: Client, o: Object)
    requires !c.crashed && c.generating.None?
    ensures var c' := Handle(c, o);
            && (forall id :: c'.generating == Some(id) <==> AssignsName(o, id))
            && (c'.crashed <==>
                || (!c.hasSession && (TellsOfPeer(o, "PEER_JOINED") || TellsOfPeer(o, "PEER_LEFT")))
                || (IsOneOf(o, "type", {"CHAT"}) && "sender" in o && !Printable(o["sender"])))
            && c' == c.(generating := c'.generating, crashed := c'.crashed)
  {
    hide Printable;
    ActionsExactly(o, c.hasSession);
    hide TellsOfPeer, AssignsName;
    PlainKinds(o);
  }

  lemma PlainKinds(o: Object)
    ensures IsOneOf(o, "type", {"CHAT"}) ==>
              && (forall id :: !AssignsName(o, id)) && !TellsOfPeer(o, "PEER_JOINED") && !TellsOfPeer(o, "PEER_LEFT")
              && !IsHandshakeObject(o)
  {
  }

  // A chunk after which the client means to close: exactly one that completes or leaves a frame that is too large.
  lemma ClosesExactly(env: Env, parse: Parser, c: Client, chunk: string)
    ensures OnArrive(env, parse, c, chunk).0.closing <==> c.closing || Oversized(c.buffer + chunk, MAX_FRAME_SIZE)
  {
    hide Oversized, Queued, Calm, AnyFatal, SplitLines, Fits;
    FramesFit(c.buffer + chunk, MAX_FRAME_SIZE);
    var (r, rest) := Fed(c.buffer, chunk, MAX_FRAME_SIZE);
    if r.Success? {
      DrainKeepsClosing(c.(buffer := rest, queue := c.queue + Queued(env, parse, Calm(env, parse, r.value))));
    }
  }

  lemma {:induction false} DrainKeepsClosing(c: Client)
    ensures Drain(c).0.closing == c.closing
    decreases |c.queue|
  {
    hide ActionFor;
    if !(c.queue == [] || c.generating.Some? || c.crashed) {
      DrainKeepsClosing(Handle(c.(queue := c.queue[1..]), c.queue[0]));
    }
  }

  // drain: the client after it and what was done.
  function Drain(c: Client): (Client, seq<Action>)
    decreases |c.queue|
  {
    if c.queue == [] || c.generating.Some? || c.crashed then (c, [])
    else
      var (c', rest) := Drain(Handle(c.(queue := c.queue[1..]), c.queue[0]));
      (c', [ActionFor(c.queue[0], c.hasSession)] + rest)
  }

  // The messages among lines none of which is fatal: blank, undecodable and invalid ones are dropped.
  function Queued(env: Env, parse: Parser, lines: seq<string>): seq<Object> {
    if lines == [] then []
    else
      (if !IsBlank(lines[0]) && parse(lines[0]).Some? && ValidateMessage(env, parse(lines[0]).value).Valid?
       then [parse(lines[0]).value.fields] else [])
      + Queued(env, parse, lines[1..])
  }

  // One line gives one message or none: the object it holds if it is valid.
  lemma QueuedExactly(env: Env, parse: Parser, line: string)
    ensures Queued(env, parse, [line]) ==
      if !IsBlank(line) && HoldsValid(env, parse, line) then [parse(line).value.fields] else []
  {
    hide ValidateMessage, IsBlank;
    assert [line][1..] == [];
    assert Queued(env, parse, []) == [];
    if parse(line).Some? {
      ValidIsObject(env, parse(line).value);
      var o := if parse(line).value.Obj? then [parse(line).value.fields] else [];
      assert o + [] == o;
    }
  }

  predicate HoldsValid(env: Env, parse: Parser, line: string) {
    parse(line).Some? && parse(line).value.Obj? && ValidateMessage(env, parse(line).value).Valid?
  }

  function OnArrive(env: Env, parse: Parser, c: Client, chunk: string): (Client, seq<Action>) {
    var (r, rest) := Fed(c.buffer, chunk, MAX_FRAME_SIZE);
    match r
    case Failure(_) => (c.(buffer := rest, closing := true), [])
    case Success(lines) =>
      var c1 := c.(buffer := rest, queue := c.queue + Queued(env, parse, Calm(env, parse, lines)));
      if AnyFatal(env, parse, lines) then (c1.(crashed := true), []) else Drain(c1)
  }

  // The timer callback: keys and session are there, and the queue is worked off.
  function OnKeysReady(c: Client): (Client, seq<Action>)
    requires c.generating.Some?
  {
    if !TakesIdentity(c.generating.value) then (c.(crashed := true), [])
    else Drain(c.(hasSession := true, generating := None))
  }

  predicate Enabled(c: Client, e: Event) {
    !c.crashed && (e.KeysReady? ==> c.generating.Some?)
  }

  function Step(env: Env, parse: Parser, c: Client, e: Event): (Client, seq<Action>)
    requires Enabled(c, e)
  {
    match e
    case Arrive(chunk) => OnArrive(env, parse, c, chunk)
    case KeysReady => OnKeysReady(c)
  }

  // The state after the events and everything done; events that cannot happen are skipped.
  function Run(env: Env, parse: Parser, c: Client, events: seq<Event>): (Client, seq<Action>)
    decreases |events|
  {
    if events == [] then (c, [])
    else if !Enabled(c, events[0]) then Run(env, parse, c, events[1..])
    else
      var (c1, now) := Step(env, parse, c, events[0]);
      var (c2, later) := Run(env, parse, c1, events[1..]);
      (c2, now + later)
  }

  // The chunks that reach the client before it crashes.
  function Chunks(env: Env, parse: Parser, c: Client, events: seq<Event>): seq<string>
    decreases |events|
  {
    if events == [] then []
    else if !Enabled(c, events[0]) then Chunks(env, parse, c, events[1..])
    else
      (if events[0].Arrive? then [events[0].chunk] else [])
      + Chunks(env, parse, Step(env, parse, c, events[0]).0, events[1..])
  }

  // ---- The same without a queue ---------------------------------------------------------------------

  // Handling messages one after the other with keys ready at once.
  datatype Story = Story(actions: seq<Action>, crashed: bool)

  function Before(actions: seq<Action>, s: Story): Story {
    Story(actions + s.actions, s.crashed)
  }

  // The PeerSession constructor throws, there is no session to call, or a sender cannot be shown.
  predicate Fatal(a: Action, hasSession: bool) {
    match a
    case AssignIdentity(id) => !TakesIdentity(id)
    case PeerIsHere => !hasSession
    case PeerIsGone => !hasSession
    case Show(o) => Unshowable(o)
    case _ => false
  }

  function Sequential(hasSession: bool, messages: seq<Object>): Story
    decreases |messages|
  {
    if messages == [] then Story([], false)
    else
      var a := ActionFor(messages[0], hasSession);
      if Fatal(a, hasSession) then Story([a], true)
      else Before([a], Sequential(hasSession || a.AssignIdentity?, messages[1..]))
  }

  // What is still to happen to a client that will receive further messages.
  function Outlook(c: Client, more: seq<Object>): Story {
    if c.crashed then Story([], true)
    else if c.generating.Some? && !TakesIdentity(c.generating.value) then Story([], true)
    else Sequential(c.hasSession || c.generating.Some?, c.queue + more)
  }

  // Between events the queue is empty unless keys are being generated, or the process is gone.
  predicate Quiescent(c: Client) {
    c.queue == [] || c.generating.Some? || c.crashed
  }

  lemma {:induction false} DrainIsFaithful(c: Client, more: seq<Object>)
    ensures Outlook(c, more) == Before(Drain(c).1, Outlook(Drain(c).0, more))
    ensures Quiescent(Drain(c).0) && Drain(c).0.buffer == c.buffer
    decreases |c.queue|
  {
    hide ActionFor, TakesIdentity;
    if !(c.queue == [] || c.generating.Some? || c.crashed) {
      var o := c.queue[0];
      var c1 := Handle(c.(queue := c.queue[1..]), o);
      DrainIsFaithful(c1, more);
      assert (c.queue + more)[1..] == c.queue[1..] + more;
      var a := ActionFor(o, c.hasSession);
      HandleIsFaithful(c, more);
      assert Drain(c).1 == [a] + Drain(c1).1;
      BeforeBefore([a], Drain(c1).1, Outlook(Drain(c1).0, more));
    }
  }

  lemma BeforeBefore(xs: seq<Action>, ys: seq<Action>, s: Story)
    ensures Before(xs, Before(ys, s)) == Before(xs + ys, s)
  {
  }

  // Handling one message.
  lemma HandleIsFaithful(c: Client, more: seq<Object>)
    requires c.queue != [] && c.generating.None? && !c.crashed
    ensures Outlook(c, more) ==
      Before([ActionFor(c.queue[0], c.hasSession)], Outlook(Handle(c.(queue := c.queue[1..]), c.queue[0]), more))
  {
    hide ActionFor, TakesIdentity, Unshowable;
    ActionKinds(c.queue[0], c.hasSession);
    assert (c.queue + more)[1..] == c.queue[1..] + more;
  }

  // Once key generation started, nothing more is handled until the keys are there.
  lemma {:induction false} NothingAfterAssignment(c: Client, i: nat)
    requires i < |Drain(c).1| && Drain(c).1[i].AssignIdentity?
    ensures i == |Drain(c).1| - 1 && c.generating.None?
    ensures Drain(c).0.generating == Some(Drain(c).1[i].id)
    decreases |c.queue|
  {
    hide ActionFor;
    var c1 := Handle(c.(queue := c.queue[1..]), c.queue[0]);
    if i > 0 {
      NothingAfterAssignment(c1, i - 1);
    }
  }

  // Every message is handled or still queued, in the order of arrival; without crash none is lost.
  lemma {:induction false} DrainConserves(c: Client)
    ensures |Drain(c).1| <= |c.queue| && Drain(c).0.queue == c.queue[|Drain(c).1|..]
    decreases |c.queue|
  {
    hide ActionFor;
    if !(c.queue == [] || c.generating.Some? || c.crashed) {
      DrainConserves(Handle(c.(queue := c.queue[1..]), c.queue[0]));
    }
  }

  // ---- Runs ------------------------------------------------------------------------------------------

  // The messages that came in, in order of arrival.
  function Arrivals(env: Env, parse: Parser, c: Client, events: seq<Event>): seq<Object>
    decreases |events|
  {
    if events == [] then []
    else if !Enabled(c, events[0]) then Arrivals(env, parse, c, events[1..])
    else ArrivalsNow(env, parse, c, events[0]) + Arrivals(env, parse, Step(env, parse, c, events[0]).0, events[1..])
  }

  function ArrivalsNow(env: Env, parse: Parser, c: Client, e: Event): seq<Object> {
    match e
    case KeysReady => []
    case Arrive(chunk) =>
      var r := Fed(c.buffer, chunk, MAX_FRAME_SIZE).0;
      if r.Success? then Queued(env, parse, Calm(env, parse, r.value)) else []
  }

  // The event brings a fatal line.
  predicate ThrowsNow(env: Env, parse: Parser, c: Client, e: Event) {
    e.Arrive? && match Fed(c.buffer, e.chunk, MAX_FRAME_SIZE).0
                 case Success(lines) => AnyFatal(env, parse, lines)
                 case Failure(_) => false
  }

  // Some event of the run does.
  predicate Throws(env: Env, parse: Parser, c: Client, events: seq<Event>)
    decreases |events|
  {
    if events == [] then false
    else if !Enabled(c, events[0]) then Throws(env, parse, c, events[1..])
    else ThrowsNow(env, parse, c, events[0]) || Throws(env, parse, Step(env, parse, c, events[0]).0, events[1..])
  }

  lemma StepIsFaithful(env: Env, parse: Parser, c: Client, e: Event, more: seq<Object>)
    requires Enabled(c, e) && Quiescent(c)
    ensures var (c', now) := Step(env, parse, c, e);
            && Quiescent(c')
            && (!ThrowsNow(env, parse, c, e) ==>
                  Outlook(c, ArrivalsNow(env, parse, c, e) + more) == Before(now, Outlook(c', more)))
            && (ThrowsNow(env, parse, c, e) ==> c'.crashed && now == [])
            && |now| <= |c.queue + ArrivalsNow(env, parse, c, e)|
            && c'.queue == (c.queue + ArrivalsNow(env, parse, c, e))[|now|..]
  {
    hide Drain, Fed, Queued, Outlook, Calm, AnyFatal;
    assert [] + more == more && c.queue + [] == c.queue;
    match e
    case KeysReady =>
      ReadyOutlook(c, more);
      DrainIsFaithful(c.(hasSession := true, generating := None), more);
      DrainConserves(c.(hasSession := true, generating := None));
    case Arrive(chunk) =>
      var (r, rest) := Fed(c.buffer, chunk, MAX_FRAME_SIZE);
      var got := if r.Success? then Queued(env, parse, Calm(env, parse, r.value)) else [];
      ArriveOutlook(c, rest, got, more);
      if r.Success? {
        var c1 := c.(buffer := rest, queue := c.queue + got);
        DrainIsFaithful(c1, more);
        DrainConserves(c1);
      }
  }

  lemma ReadyOutlook(c: Client, more: seq<Object>)
    requires c.generating.Some? && !c.crashed
    ensures Quiescent(c.(crashed := true))
    ensures Outlook(c, more) ==
      if TakesIdentity(c.generating.value) then Outlook(c.(hasSession := true, generating := None), more)
      else Before([], Outlook(c.(crashed := true), more))
  {
    hide TakesIdentity, Sequential;
  }

  lemma ArriveOutlook(c: Client, buffer: string, got: seq<Object>, more: seq<Object>)
    ensures Outlook(c, got + more) == Outlook(c.(buffer := buffer, queue := c.queue + got), more)
    ensures got == [] ==> Outlook(c, more) == Before([], Outlook(c.(buffer := buffer, closing := true), more))
    ensures Quiescent(c) ==> Quiescent(c.(buffer := buffer, closing := true))
  {
    hide TakesIdentity, Sequential;
    assert c.queue + (got + more) == c.queue + got + more;
  }

  // Over every run: what was done, followed by what the queue still holds in store, is the story of all
  // arrivals, or the beginning of it if a fatal line ended the process; and the queue is the arrivals
  // without those already handled.
  lemma {:induction false} RunIsFaithful(env: Env, parse: Parser, c: Client, events: seq<Event>)
    requires Quiescent(c)
    ensures var (c', actions) := Run(env, parse, c, events);
            var all := c.queue + Arrivals(env, parse, c, events);
            && Quiescent(c')
            && (!Throws(env, parse, c, events) ==>
                  Outlook(c, Arrivals(env, parse, c, events)) == Before(actions, Outlook(c', [])))
            && (Throws(env, parse, c, events) ==>
                  c'.crashed && actions <= Outlook(c, Arrivals(env, parse, c, events)).actions)
            && |actions| <= |all| && c'.queue == all[|actions|..]
    decreases |events|
  {
    hide Step, Enabled, Outlook, Quiescent, ArrivalsNow, ThrowsNow;
    if events == [] {
      assert c.queue + [] == c.queue;
    } else if Enabled(c, events[0]) {
      var (c1, now) := Step(env, parse, c, events[0]);
      var first, later := ArrivalsNow(env, parse, c, events[0]), Arrivals(env, parse, c1, events[1..]);
      StepIsFaithful(env, parse, c, events[0], later);
      if ThrowsNow(env, parse, c, events[0]) {
        CrashedDoesNothing(env, parse, c1, events[1..]);
        assert first + [] == first && now + [] == [];
      } else {
        RunIsFaithful(env, parse, c1, events[1..]);
        var actions := Run(env, parse, c1, events[1..]).1;
        BeforeBefore(now, actions, Outlook(Run(env, parse, c1, events[1..]).0, []));
        Suffixes(c.queue, first, later, |now|, |actions|);
      }
    } else {
      RunIsFaithful(env, parse, c, events[1..]);
    }
  }

  lemma CrashedDoesNothing(env: Env, parse: Parser, c: Client, events: seq<Event>)
    requires c.crashed
    ensures Run(env, parse, c, events) == (c, []) && Arrivals(env, parse, c, events) == []
    ensures Chunks(env, parse, c, events) == [] && !Throws(env, parse, c, events)
    decreases |events|
  {
    hide Step;
    if events != [] {
      CrashedDoesNothing(env, parse, c, events[1..]);
    }
  }

  lemma Suffixes(queue: seq<Object>, first: seq<Object>, later: seq<Object>, m: nat, n: nat)
    requires m <= |queue + first| && n <= |(queue + first)[m..] + later|
    ensures m + n <= |queue + (first + later)|
    ensures ((queue + first)[m..] + later)[n..] == (queue + (first + later))[m + n..]
  {
    assert (queue + first)[m..] + later == (queue + (first + later))[m..];
  }

  lemma {:induction false} AcceptedConcat(env: Env, parse: Parser, xs: seq<string>, ys: seq<string>)
    ensures Queued(env, parse, xs + ys) == Queued(env, parse, xs) + Queued(env, parse, ys)
  {
    hide ValidateMessage, IsBlank;
    if xs == [] {
      assert xs + ys == ys;
    } else {
      assert (xs + ys)[1..] == xs[1..] + ys;
      AcceptedConcat(env, parse, xs[1..], ys);
    }
  }

  lemma NextAccepted(env: Env, parse: Parser, lines: seq<string>)
    requires lines != []
    ensures Queued(env, parse, Calm(env, parse, lines)) ==
      if IsFatal(env, parse, lines[0]) then []
      else Queued(env, parse, [lines[0]]) + Queued(env, parse, Calm(env, parse, lines[1..]))
  {
    hide IsFatal, Queued;
    AcceptedNothing(env, parse);
    if !IsFatal(env, parse, lines[0]) {
      AcceptedConcat(env, parse, [lines[0]], Calm(env, parse, lines[1..]));
    }
  }

  // Without an oversized frame, what arrives is what the text of all chunks holds before its first fatal
  // line.
  lemma {:induction false} ArrivalsAreDelivered(env: Env, parse: Parser, c: Client, events: seq<Event>)
    requires !FeedAll(c.buffer, Chunks(env, parse, c, events), MAX_FRAME_SIZE).failed
    ensures var lines := FeedAll(c.buffer, Chunks(env, parse, c, events), MAX_FRAME_SIZE).delivered;
            && Arrivals(env, parse, c, events) == Queued(env, parse, Calm(env, parse, lines))
            && (Throws(env, parse, c, events) <==> AnyFatal(env, parse, lines))
    decreases |events|
  {
    hide Fed, Queued, Enabled, Drain, Calm, AnyFatal;
    AcceptedNothing(env, parse);
    RelayRuns.NothingCalm(env, parse);
    if events != [] && Enabled(c, events[0]) {
      var c1 := Step(env, parse, c, events[0]).0;
      var later := Chunks(env, parse, c1, events[1..]);
      StepBuffer(env, parse, c, events[0]);
      if events[0].Arrive? {
        assert ([events[0].chunk] + later)[1..] == later;
        var (r, rest) := Fed(c.buffer, events[0].chunk, MAX_FRAME_SIZE);
        var more := FeedAll(rest, later, MAX_FRAME_SIZE).delivered;
        CalmConcat(env, parse, r.value, more);
        CalmIsPrefix(env, parse, r.value);
        AcceptedConcat(env, parse, r.value, Calm(env, parse, more));
        if c1.crashed {
          CrashedDoesNothing(env, parse, c1, events[1..]);
          assert Queued(env, parse, Calm(env, parse, r.value)) + [] == Queued(env, parse, Calm(env, parse, r.value));
        }
      } else {
        assert [] + later == later;
      }
      ArrivalsAreDelivered(env, parse, c1, events[1..]);
    } else if events != [] {
      ArrivalsAreDelivered(env, parse, c, events[1..]);
    }
  }

  lemma AcceptedNothing(env: Env, parse: Parser)
    ensures Queued(env, parse, []) == []
  {
  }

  lemma StepBuffer(env: Env, parse: Parser, c: Client, e: Event)
    requires Enabled(c, e)
    ensures Step(env, parse, c, e).0.buffer == if e.Arrive? then Fed(c.buffer, e.chunk, MAX_FRAME_SIZE).1 else c.buffer
    ensures ThrowsNow(env, parse, c, e) ==> Step(env, parse, c, e).0.crashed
  {
    hide Fed, Queued, Drain, Calm, AnyFatal;
    match e
    case KeysReady => DrainIsFaithful(c.(hasSession := true, generating := None), []);
    case Arrive(chunk) =>
      var (r, rest) := Fed(c.buffer, chunk, MAX_FRAME_SIZE);
      if r.Success? {
        DrainIsFaithful(c.(buffer := rest, queue := c.queue + Queued(env, parse, Calm(env, parse, r.value))), []);
      }
  }

  // The main statement. However the text from the server is chunked and whenever keys get ready, the
  // client does the same things in the same order as if keys were ready at once and nothing ever
  // waited: a prefix of them while keys are being generated, all of them otherwise. A line whose
  // validation throws ends it wherever it is.
  lemma WaitingIsInvisible(env: Env, parse: Parser, events: seq<Event>)
    requires !Oversized(Concat(Chunks(env, parse, INITIAL, events)), MAX_FRAME_SIZE)
    ensures var (c, actions) := Run(env, parse, INITIAL, events);
            var lines := SplitLines(Concat(Chunks(env, parse, INITIAL, events))).lines;
            var story := Sequential(false, Queued(env, parse, Calm(env, parse, lines)));
            && actions <= story.actions
            && Quiescent(c)
            && (AnyFatal(env, parse, lines) ==> c.crashed)
            && (!AnyFatal(env, parse, lines) && (c.generating.None? || c.crashed) ==>
                  Story(actions, c.crashed) == story)
  {
    hide Oversized, Queued, SplitLines, FeedAll, Run, Arrivals, Chunks, AllFit, TakesIdentity, AnyFatal, Calm;
    var chunks := Chunks(env, parse, INITIAL, events);
    EmptyFits();
    ChunkingInvariance("", chunks, MAX_FRAME_SIZE);
    assert "" + Concat(chunks) == Concat(chunks);
    ArrivalsAreDelivered(env, parse, INITIAL, events);
    RunIsFaithful(env, parse, INITIAL, events);
    var (c, actions) := Run(env, parse, INITIAL, events);
    var all := Arrivals(env, parse, INITIAL, events);
    assert INITIAL.queue + all == all;
    if c.generating.None? && !c.crashed {
      assert c.queue + [] == [];
    }
    assert actions + [] == actions;
  }

  // Over every run in which no frame is too large and keys are not being generated any more: the client
  // crashed if and only if a line that reached it is fatal, or handling the messages one by one is.
  lemma RunCrashesExactly(env: Env, parse: Parser, events: seq<Event>)
    requires !Oversized(Concat(Chunks(env, parse, INITIAL, events)), MAX_FRAME_SIZE)
    requires Run(env, parse, INITIAL, events).0.generating.None? || Run(env, parse, INITIAL, events).0.crashed
    ensures var lines := SplitLines(Concat(Chunks(env, parse, INITIAL, events))).lines;
            var messages := Queued(env, parse, lines);
            Run(env, parse, INITIAL, events).0.crashed <==>
              || AnyFatal(env, parse, lines)
              || exists i :: 0 <= i < |messages| && FatalAt(messages, false, i)
  {
    hide Oversized, Queued, SplitLines, Run, Chunks, AnyFatal, Calm, FatalAt, Sequential;
    WaitingIsInvisible(env, parse, events);
    var lines := SplitLines(Concat(Chunks(env, parse, INITIAL, events))).lines;
    CalmIsPrefix(env, parse, lines);
    CrashesExactly(false, Queued(env, parse, lines));
  }

  // ---- When a client crashes -------------------------------------------------------------------------

  predicate Assigns(o: Object) {
    TextOf(o, "type") == "SYSTEM" && GREETING <= TextOf(o, "text")
  }

  predicate IsPresence(o: Object) {
    !Assigns(o) && TextOf(o, "type") == "SYSTEM" && TextOf(o, "event") in {"PEER_JOINED", "PEER_LEFT"}
  }

  // A greeting with an identity that no session takes, a presence notice before any greeting, or a chat
  // message whose sender cannot be shown.
  predicate FatalAt(messages: seq<Object>, hasSession: bool, i: nat)
    requires i < |messages|
  {
    var o := messages[i];
    || (Assigns(o) && !TakesIdentity(TextOf(o, "text")[|GREETING|..]))
    || (IsPresence(o) && !hasSession && forall j :: 0 <= j < i ==> !Assigns(messages[j]))
    || Unshowable(o)
  }

  lemma {:induction false} CrashesExactly(hasSession: bool, messages: seq<Object>)
    ensures Sequential(hasSession, messages).crashed <==>
              exists i :: 0 <= i < |messages| && FatalAt(messages, hasSession, i)
    decreases |messages|
  {
    hide TakesIdentity, Assigns, IsPresence, ActionFor, Unshowable;
    if messages != [] {
      var o, rest := messages[0], messages[1..];
      var ready := hasSession || Assigns(o);
      ActionKinds(o, hasSession);
      CrashesExactly(ready, rest);
      if i :| 0 <= i < |rest| && FatalAt(rest, ready, i) {
        assert messages[i + 1] == rest[i];
        assert forall j :: 0 <= j < i ==> rest[j] == messages[j + 1];
        assert FatalAt(messages, hasSession, i + 1);
      }
      if i :| 0 <= i < |messages| && FatalAt(messages, hasSession, i) && i > 0 {
        assert rest[i - 1] == messages[i];
        assert forall j :: 0 <= j < i - 1 ==> rest[j] == messages[j + 1];
        assert FatalAt(rest, ready, i - 1) || Fatal(ActionFor(o, hasSession), hasSession);
      }
      assert FatalAt(messages, hasSession, 0) <==> Fatal(ActionFor(o, hasSession), hasSession);
    }
  }

  lemma ActionKinds(o: Object, hasSession: bool)
    ensures ActionFor(o, hasSession).AssignIdentity? <==> Assigns(o)
    ensures Assigns(o) ==> ActionFor(o, hasSession).id == TextOf(o, "text")[|GREETING|..]
    ensures (ActionFor(o, hasSession).PeerIsHere? || ActionFor(o, hasSession).PeerIsGone?) <==> IsPresence(o)
    ensures Unshowable(o) ==> ActionFor(o, hasSession) == Show(o)
    ensures ActionFor(o, hasSession).Show? ==> ActionFor(o, hasSession) == Show(o)
  {
  }

  // A chat message that passes validation and cannot be shown.
  lemma UnprintableSenderCrashes(env: Env)
    ensures var o := map["type" := Str("CHAT"), "text" := Str("x"), "sender" := Nested({"toString"})];
            ValidateMessage(env, Obj(o)).Valid? && Sequential(false, [o]) == Story([Show(o)], true)
  {
    assert !IsJsSpace("CHAT"[0]) && !IsJsSpace("x"[0]);
  }
}
