// What holds over every run of the relay: conservation of lines, presence notices, chat frames
// (src/server.js:67-178).
module RelayRuns {
  import opened Wrappers
  import opened Text
  import opened Crypto
  import opened Messages
  import opened Validation
  import opened Framing
  import opened Sessions
  import opened JsonText
  import opened Transport
  import opened Relaying

  // ---- Conservation ----------------------------------------------------------------------------------

  function NonBlank(lines: seq<string>): seq<string> {
    if lines == [] then [] else (if IsBlank(lines[0]) then [] else [lines[0]]) + NonBlank(lines[1..])
  }

  // The lines whose handling produced these records, for one socket and in order.
  function LinesOf(records: seq<Record>, socket: nat): seq<string> {
    if records == [] then []
    else (if records[0].cause.Handling? && records[0].cause.socket == socket then [records[0].cause.line] else [])
         + LinesOf(records[1..], socket)
  }

  lemma {:induction false} LinesOfConcat(xs: seq<Record>, ys: seq<Record>, socket: nat)
    ensures LinesOf(xs + ys, socket) == LinesOf(xs, socket) + LinesOf(ys, socket)
  {
    if xs == [] {
      assert xs + ys == ys;
    } else {
      assert (xs + ys)[1..] == xs[1..] + ys;
      LinesOfConcat(xs[1..], ys, socket);
    }
  }

  lemma NextNonBlank(lines: seq<string>)
    requires lines != []
    ensures NonBlank(lines) == (if IsBlank(lines[0]) then [] else [lines[0]]) + NonBlank(lines[1..])
  {
  }

  lemma {:induction false} NonBlankConcat(xs: seq<string>, ys: seq<string>)
    ensures NonBlank(xs + ys) == NonBlank(xs) + NonBlank(ys)
  {
    hide IsBlank;
    if xs == [] {
      assert xs + ys == ys;
    } else {
      assert (xs + ys)[1..] == xs[1..] + ys && (xs + ys)[0] == xs[0];
      NextNonBlank(xs + ys);
      NextNonBlank(xs);
      NonBlankConcat(xs[1..], ys);
    }
  }

  // The loop answers every non-blank line before the first fatal one.
  lemma {:induction false} HandledLines(env: Env, parse: Parser, role: Role, self: nat, peer: Option<nat>,
                                        lines: seq<string>, socket: nat)
    ensures LinesOf(Handled(env, parse, role, self, peer, lines), socket)
         == if socket == self then NonBlank(Calm(env, parse, lines)) else []
  {
    hide Answer, IsBlank;
    if lines != [] {
      HandledLines(env, parse, role, self, peer, lines[1..], socket);
      FatalMeans(env, parse, role, self, peer, lines[0]);
      var later := Handled(env, parse, role, self, peer, lines[1..]);
      var answer := Answer(env, parse, role, self, peer, lines[0]);
      if !IsFatal(env, parse, lines[0]) {
        assert Calm(env, parse, lines)[1..] == Calm(env, parse, lines[1..]);
        if !IsBlank(lines[0]) {
          LinesOfConcat([Record(answer.value, Handling(self, role, peer, lines[0]))], later, socket);
        }
      }
    }
  }

  lemma FatalMeans(env: Env, parse: Parser, role: Role, self: nat, peer: Option<nat>, line: string)
    ensures !IsBlank(line) ==> (Answer(env, parse, role, self, peer, line).None? <==> IsFatal(env, parse, line))
    ensures IsBlank(line) ==> !IsFatal(env, parse, line)
  {
    RestGoesBack(env, parse, role, self, peer, line);
    hide Answer, IsBlank;
  }

  predicate Holds(s: Server, role: Role, socket: nat) {
    role in s.slots && s.slots[role].socket == socket
  }

  predicate HoldsNone(s: Server, socket: nat) {
    !Holds(s, ClientA, socket) && !Holds(s, ClientB, socket)
  }

  // The lines the framing will deliver from a socket that is yet to send these chunks.
  function Delivered(s: Server, socket: nat, chunks: seq<string>): seq<string> {
    if Holds(s, ClientA, socket) then DeliveredFrom(s.slots[ClientA], chunks)
    else if Holds(s, ClientB, socket) then DeliveredFrom(s.slots[ClientB], chunks)
    else if socket in s.seen then []
    else FeedAll("", chunks, MAX_FRAME_SIZE).delivered
  }

  function DeliveredFrom(c: Connection, chunks: seq<string>): seq<string> {
    if c.closing then [] else FeedAll(c.buffer, chunks, MAX_FRAME_SIZE).delivered
  }

  // The lines one event delivers from a socket.
  function LinesNow(s: Server, e: SocketEvent, socket: nat): seq<string> {
    if e.Data? && Holds(s, e.role, socket) && !s.slots[e.role].closing then
      match Fed(s.slots[e.role].buffer, e.chunk, MAX_FRAME_SIZE).0
      case Failure(_) => []
      case Success(lines) => lines
    else []
  }

  lemma {:induction false} GoneSendsNothing(env: Env, parse: Parser, s: Server, events: seq<SocketEvent>, socket: nat)
    requires ServerInv(s) && ((HoldsNone(s, socket) && socket in s.seen) || s.down)
    ensures ChunksFrom(env, parse, s, events, socket) == []
    decreases |events|
  {
    hide OnData, ServerInv;
    if events != [] {
      var e := events[0];
      if Enabled(s, e) {
        StepKeepsInv(env, parse, s, e);
        StepHolds(env, parse, s, e, socket);
        if e.Data? {
          assert e.role.ClientA? || e.role.ClientB?;
        }
        GoneSendsNothing(env, parse, Step(env, parse, s, e).0, events[1..], socket);
      } else {
        GoneSendsNothing(env, parse, s, events[1..], socket);
      }
    }
  }

  // Slots change hands only by connecting and closing.
  lemma StepHolds(env: Env, parse: Parser, s: Server, e: SocketEvent, socket: nat)
    requires Enabled(s, e)
    ensures var s' := Step(env, parse, s, e).0;
            && s.seen <= s'.seen
            && (e != Connect(socket) ==> (socket in s'.seen <==> socket in s.seen))
            && forall r :: Holds(s', r, socket) <==>
                 (Holds(s, r, socket) && e != Close(r)) || (e == Connect(socket) && FreeSlot(s) == Some(r))
  {
    hide Handled, Fed, AnyFatal;
  }

  // One event: the lines it delivers from a socket, and what is left to be delivered.
  lemma StepDelivers(env: Env, parse: Parser, s: Server, e: SocketEvent, socket: nat, later: seq<string>)
    requires ServerInv(s) && Enabled(s, e)
    requires HoldsNone(Step(env, parse, s, e).0, socket) && socket in Step(env, parse, s, e).0.seen ==> later == []
    ensures var s' := Step(env, parse, s, e).0;
            var now := if e.Data? && s.slots[e.role].socket == socket then [e.chunk] else [];
            Delivered(s, socket, now + later) == LinesNow(s, e, socket) + Delivered(s', socket, later)
  {
    hide Handled, Fed, AnyFatal, Fits;
    assert [] + later == later;
    NothingDelivered();
    match e
    case Connect(_) =>
    case Close(_) =>
    case Data(role, chunk) => DataDelivers(env, parse, s, role, chunk, socket, later);
  }

  lemma DataDelivers(env: Env, parse: Parser, s: Server, role: Role, chunk: string, socket: nat, later: seq<string>)
    requires ServerInv(s) && Enabled(s, Data(role, chunk))
    ensures var s' := OnData(env, parse, s, role, chunk).0;
            var now := if s.slots[role].socket == socket then [chunk] else [];
            Delivered(s, socket, now + later) == LinesNow(s, Data(role, chunk), socket) + Delivered(s', socket, later)
  {
    hide Handled, Fed, AnyFatal, Fits, FeedAll;
    var c := s.slots[role];
    if c.socket == socket {
      OwnDataDelivers(c, chunk, later);
      OwnSlot(s, role, socket);
    } else {
      assert [] + later == later;
    }
  }

  lemma OwnSlot(s: Server, role: Role, socket: nat)
    requires ServerInv(s) && Holds(s, role, socket)
    ensures !Holds(s, Peer(role), socket)
  {
  }

  lemma NothingDelivered()
    ensures FeedAll("", [], MAX_FRAME_SIZE).delivered == []
    ensures forall c: Connection :: DeliveredFrom(c, []) == []
  {
  }

  lemma OwnDataDelivers(c: Connection, chunk: string, later: seq<string>)
    ensures var (r, rest) := Fed(c.buffer, chunk, MAX_FRAME_SIZE);
            DeliveredFrom(c, [chunk] + later) ==
              if c.closing then []
              else match r
                   case Failure(_) => []
                   case Success(lines) => lines + DeliveredFrom(c.(buffer := rest), later)
  {
    hide Fed;
    assert ([chunk] + later)[1..] == later;
  }

  lemma NoLines(records: seq<Record>, socket: nat)
    requires forall r :: r in records ==> !r.cause.Handling?
    ensures LinesOf(records, socket) == []
  {
  }

  // One event: what it handles of the lines it delivers, and when it ends the server.
  lemma StepHandles(env: Env, parse: Parser, s: Server, e: SocketEvent, socket: nat)
    requires ServerInv(s) && Enabled(s, e)
    ensures var (s', records) := Step(env, parse, s, e);
            && LinesOf(records, socket) == NonBlank(Calm(env, parse, LinesNow(s, e, socket)))
            && (s'.down <==> e.Data? && AnyFatal(env, parse, LinesNow(s, e, s.slots[e.role].socket)))
  {
    hide Fits, NonBlank, LinesOf, Fed, Handled, AnyFatal, Calm;
    NothingCalm(env, parse);
    var records := Step(env, parse, s, e).1;
    match e
    case Connect(_) => NoLines(records, socket);
    case Close(_) => NoLines(records, socket);
    case Data(role, chunk) =>
      var c := s.slots[role];
      if c.closing {
        NoLines(records, socket);
      } else {
        var (r, rest) := Fed(c.buffer, chunk, MAX_FRAME_SIZE);
        match r
        case Failure(_) => NoLines(records, socket);
        case Success(lines) => HandledLines(env, parse, role, c.socket, Occupant(s, Peer(role)), lines, socket);
      }
  }

  lemma NothingCalm(env: Env, parse: Parser)
    ensures Calm(env, parse, []) == [] && NonBlank([]) == [] && !AnyFatal(env, parse, [])
  {
  }

  lemma DownHandlesNothing(env: Env, parse: Parser, s: Server, events: seq<SocketEvent>)
    requires s.down
    ensures Run(env, parse, s, events) == (s, [])
    decreases |events|
  {
    hide OnData;
    if events != [] {
      DownHandlesNothing(env, parse, s, events[1..]);
    }
  }

  lemma NothingLeft(s: Server, socket: nat)
    ensures Delivered(s, socket, []) == []
  {
    hide DeliveredFrom, FeedAll;
    NothingDelivered();
  }

  // Over every run: the lines handled from a socket are the non-blank ones it delivers before the first
  // fatal one.
  lemma {:induction false} RunHandles(env: Env, parse: Parser, s: Server, events: seq<SocketEvent>, socket: nat)
    requires ServerInv(s) && !s.down
    ensures LinesOf(Run(env, parse, s, events).1, socket)
         == NonBlank(Calm(env, parse, Delivered(s, socket, ChunksFrom(env, parse, s, events, socket))))
    decreases |events|
  {
    hide ServerInv, Step, Enabled, LinesOf, Delivered, LinesNow, Calm, NonBlank, AnyFatal;
    NothingCalm(env, parse);
    NothingLeft(s, socket);
    if events == [] {
      NoLines([], socket);
    } else if !Enabled(s, events[0]) {
      RunHandles(env, parse, s, events[1..], socket);
    } else {
      var e := events[0];
      var (s1, now) := Step(env, parse, s, e);
      var later := ChunksFrom(env, parse, s1, events[1..], socket);
      var lines, more := LinesNow(s, e, socket), Delivered(s1, socket, later);
      StepKeepsInv(env, parse, s, e);
      if (HoldsNone(s1, socket) && socket in s1.seen) || s1.down {
        GoneSendsNothing(env, parse, s1, events[1..], socket);
      }
      StepDelivers(env, parse, s, e, socket, later);
      StepHandles(env, parse, s, e, socket);
      CalmConcat(env, parse, lines, more);
      CalmIsPrefix(env, parse, lines);
      NonBlankConcat(lines, Calm(env, parse, more));
      LinesOfConcat(now, Run(env, parse, s1, events[1..]).1, socket);
      if s1.down {
        DownHandlesNothing(env, parse, s1, events[1..]);
        NothingLeft(s1, socket);
        NoLines([], socket);
        assert lines + [] == lines && NonBlank(Calm(env, parse, lines)) + [] == NonBlank(Calm(env, parse, lines));
      } else {
        OtherLinesCalm(env, parse, s, e, socket);
        RunHandles(env, parse, s1, events[1..], socket);
      }
    }
  }

  // A server that stays up was delivered no fatal line by this event, from any socket.
  lemma OtherLinesCalm(env: Env, parse: Parser, s: Server, e: SocketEvent, socket: nat)
    requires ServerInv(s) && Enabled(s, e) && !Step(env, parse, s, e).0.down
    ensures !AnyFatal(env, parse, LinesNow(s, e, socket))
  {
    hide Handled, Fed, Fits, IsFatal;
    StepHandles(env, parse, s, e, socket);
  }

  // Over every run: the server ends if and only if some socket delivers a fatal line while it holds a slot
  // and is not closing. Nothing else that clients send ends it.
  lemma {:induction false} RunEndsExactly(env: Env, parse: Parser, s: Server, events: seq<SocketEvent>)
    requires ServerInv(s) && !s.down
    ensures Run(env, parse, s, events).0.down <==> exists socket :: SendsFatal(env, parse, s, events, socket)
    decreases |events|
  {
    hide ServerInv, Step, Enabled, LinesNow, AnyFatal, SendsFatal;
    if events == [] {
      forall socket
        ensures !SendsFatal(env, parse, s, events, socket)
      {
        NothingFatal(env, parse, s, socket);
      }
    } else if !Enabled(s, events[0]) {
      RunEndsExactly(env, parse, s, events[1..]);
      forall socket
        ensures SendsFatal(env, parse, s, events, socket) <==> SendsFatal(env, parse, s, events[1..], socket)
      {
        FatalSkips(env, parse, s, events, socket);
      }
    } else {
      var e := events[0];
      var s1 := Step(env, parse, s, e).0;
      StepKeepsInv(env, parse, s, e);
      forall socket
        ensures SendsFatal(env, parse, s, events, socket) <==>
          AnyFatal(env, parse, LinesNow(s, e, socket)) || SendsFatal(env, parse, s1, events[1..], socket)
      {
        FatalNowOrLater(env, parse, s, events, socket);
      }
      if s1.down {
        StepHandles(env, parse, s, e, 0);
        DataFromSlot(s, e);
        DownHandlesNothing(env, parse, s1, events[1..]);
        assert SendsFatal(env, parse, s, events, s.slots[e.role].socket);
      } else {
        forall socket
          ensures !AnyFatal(env, parse, LinesNow(s, e, socket))
        {
          OtherLinesCalm(env, parse, s, e, socket);
        }
        RunEndsExactly(env, parse, s1, events[1..]);
      }
    }
  }

  lemma DataFromSlot(s: Server, e: SocketEvent)
    requires Enabled(s, e)
    ensures e.Data? ==> e.role in s.slots
  {
  }

  // A socket delivers a fatal line while it holds a slot and is not closing.
  predicate SendsFatal(env: Env, parse: Parser, s: Server, events: seq<SocketEvent>, socket: nat) {
    AnyFatal(env, parse, Delivered(s, socket, ChunksFrom(env, parse, s, events, socket)))
  }

  lemma NothingFatal(env: Env, parse: Parser, s: Server, socket: nat)
    ensures !SendsFatal(env, parse, s, [], socket)
  {
    hide Delivered, AnyFatal;
    NothingLeft(s, socket);
    NothingCalm(env, parse);
  }

  lemma FatalSkips(env: Env, parse: Parser, s: Server, events: seq<SocketEvent>, socket: nat)
    requires events != [] && !Enabled(s, events[0])
    ensures SendsFatal(env, parse, s, events, socket) <==> SendsFatal(env, parse, s, events[1..], socket)
  {
    hide Delivered, AnyFatal, Enabled;
  }

  lemma FatalNowOrLater(env: Env, parse: Parser, s: Server, events: seq<SocketEvent>, socket: nat)
    requires ServerInv(s) && events != [] && Enabled(s, events[0])
    ensures var s1 := Step(env, parse, s, events[0]).0;
            SendsFatal(env, parse, s, events, socket) <==>
              AnyFatal(env, parse, LinesNow(s, events[0], socket)) || SendsFatal(env, parse, s1, events[1..], socket)
  {
    hide ServerInv, Step, Delivered, LinesNow, AnyFatal;
    var s1 := Step(env, parse, s, events[0]).0;
    var later := ChunksFrom(env, parse, s1, events[1..], socket);
    StepKeepsInv(env, parse, s, events[0]);
    if HoldsNone(s1, socket) && socket in s1.seen {
      GoneSendsNothing(env, parse, s1, events[1..], socket);
    }
    StepDelivers(env, parse, s, events[0], socket, later);
    CalmConcat(env, parse, LinesNow(s, events[0], socket), Delivered(s1, socket, later));
  }

  // Over every run and for every socket: the lines it had handled, in order and each exactly once, are
  // the non-blank lines of the text it sent, up to the first fatal one if there is one. If some frame of
  // that text is over the limit they are a prefix of them.
  lemma EveryLineHandledOnce(env: Env, parse: Parser, events: seq<SocketEvent>, socket: nat)
    ensures var text := Concat(ChunksFrom(env, parse, INITIAL, events, socket));
            var handled := LinesOf(Run(env, parse, INITIAL, events).1, socket);
            var lines := SplitLines(text).lines;
            && handled <= NonBlank(Calm(env, parse, lines)) <= NonBlank(lines)
            && (!Oversized(text, MAX_FRAME_SIZE) ==> handled == NonBlank(Calm(env, parse, lines)))
            && (!AnyFatal(env, parse, lines) ==> NonBlank(Calm(env, parse, lines)) == NonBlank(lines))
  {
    hide SplitLines, LinesOf, Run, ChunksFrom, FeedAll, Oversized, NonBlank, AllFit, Calm, AnyFatal;
    var chunks := ChunksFrom(env, parse, INITIAL, events, socket);
    var text := Concat(chunks);
    EmptyFits();
    RunHandles(env, parse, INITIAL, events, socket);
    ChunkingInvariance("", chunks, MAX_FRAME_SIZE);
    assert "" + text == text;
    var got, all := FeedAll("", chunks, MAX_FRAME_SIZE).delivered, SplitLines(text).lines;
    assert got + all[|got|..] == all;
    CalmConcat(env, parse, got, all[|got|..]);
    CalmIsPrefix(env, parse, got);
    CalmIsPrefix(env, parse, all);
    PrefixNonBlank(Calm(env, parse, got), Calm(env, parse, all));
    PrefixNonBlank(Calm(env, parse, all), all);
  }

  lemma PrefixNonBlank(xs: seq<string>, ys: seq<string>)
    requires xs <= ys
    ensures NonBlank(xs) <= NonBlank(ys)
  {
    hide NonBlank;
    NonBlankConcat(xs, ys[|xs|..]);
    assert xs + ys[|xs|..] == ys;
  }

  // The server ends if and only if a line that some socket delivers is fatal.
  lemma ServerEndsExactly(env: Env, parse: Parser, events: seq<SocketEvent>)
    ensures Run(env, parse, INITIAL, events).0.down <==> exists socket :: DeliversFatal(env, parse, events, socket)
  {
    hide FeedAll, Run, ChunksFrom, AnyFatal, DeliversFatal, SendsFatal;
    RunEndsExactly(env, parse, INITIAL, events);
    forall socket
      ensures SendsFatal(env, parse, INITIAL, events, socket) <==> DeliversFatal(env, parse, events, socket)
    {
      FromTheStart(env, parse, events, socket);
    }
  }

  // What the framing delivers of the chunks received from a socket holds a fatal line.
  predicate DeliversFatal(env: Env, parse: Parser, events: seq<SocketEvent>, socket: nat) {
    AnyFatal(env, parse, FeedAll("", ChunksFrom(env, parse, INITIAL, events, socket), MAX_FRAME_SIZE).delivered)
  }

  lemma FromTheStart(env: Env, parse: Parser, events: seq<SocketEvent>, socket: nat)
    ensures SendsFatal(env, parse, INITIAL, events, socket) <==> DeliversFatal(env, parse, events, socket)
  {
    hide FeedAll, ChunksFrom, AnyFatal;
  }

  // ---- Where the answers go ---------------------------------------------------------------------------

  // The record of a handled line holds the answer to it; only such records carry clients' packets.
  predicate RecordOk(env: Env, parse: Parser, r: Record) {
    match r.cause
    case Handling(socket, role, peer, line) =>
      !IsBlank(line) && Answer(env, parse, role, socket, peer, line) == Some(r.write) && peer != Some(socket)
    case _ => !r.write.packet.Original? && !r.write.packet.Chat?
  }

  lemma {:induction false} HandledOk(env: Env, parse: Parser, role: Role, self: nat, peer: Option<nat>,
                                     lines: seq<string>)
    requires peer != Some(self)
    ensures forall r :: r in Handled(env, parse, role, self, peer, lines) ==>
      RecordOk(env, parse, r) && r.cause.Handling? && r.cause.socket == self && r.cause.role == role &&
      r.cause.peer == peer
    ensures forall r :: r in Handled(env, parse, role, self, peer, lines) ==>
              r.write.to == self || Some(r.write.to) == peer
  {
    hide IsBlank, ValidateMessage, Name, TextOf;
    if lines != [] {
      HandledOk(env, parse, role, self, peer, lines[1..]);
    }
  }

  // One event: whatever a client's line caused was caused by the occupant of a slot, with the
  // occupant of the other slot as the only other possible receiver.
  lemma StepRouting(env: Env, parse: Parser, s: Server, e: SocketEvent, r: Record)
    requires ServerInv(s) && Enabled(s, e) && r in Step(env, parse, s, e).1
    ensures RecordOk(env, parse, r)
    ensures r.cause.Handling? ==>
      && e.Data? && r.cause.role == e.role && Holds(s, e.role, r.cause.socket) &&
         r.cause.peer == Occupant(s, Peer(e.role))
      && (r.write.to == r.cause.socket || Holds(s, Peer(e.role), r.write.to))
  {
    hide Handled, Answer, Fits, IsBlank;
    if e.Data? {
      HandledOk(env, parse, e.role, s.slots[e.role].socket, Occupant(s, Peer(e.role)),
                SplitLines(s.slots[e.role].buffer + e.chunk).lines);
    }
  }

  lemma {:induction false} RunRouting(env: Env, parse: Parser, s: Server, events: seq<SocketEvent>, r: Record)
    requires ServerInv(s) && r in Run(env, parse, s, events).1
    ensures RecordOk(env, parse, r)
    decreases |events|
  {
    hide ServerInv, Step, Enabled, RecordOk;
    if events != [] && Enabled(s, events[0]) {
      var (s1, now) := Step(env, parse, s, events[0]);
      StepKeepsInv(env, parse, s, events[0]);
      if r in now {
        StepRouting(env, parse, s, events[0], r);
      } else {
        RunRouting(env, parse, s1, events[1..], r);
      }
    } else {
      RunRouting(env, parse, s, events[1..], r);
    }
  }

  // ---- Presence ----------------------------------------------------------------------------------------

  // The notices about slots written to a socket, in order.
  function Notices(records: seq<Record>, socket: nat): seq<Packet> {
    if records == [] then []
    else (if records[0].cause.Presence? && records[0].write.to == socket then [records[0].write.packet] else [])
         + Notices(records[1..], socket)
  }

  lemma {:induction false} NoticesConcat(xs: seq<Record>, ys: seq<Record>, socket: nat)
    ensures Notices(xs + ys, socket) == Notices(xs, socket) + Notices(ys, socket)
  {
    if xs == [] {
      assert xs + ys == ys;
    } else {
      assert (xs + ys)[1..] == xs[1..] + ys;
      NoticesConcat(xs[1..], ys, socket);
    }
  }

  lemma {:induction false} NoNotices(records: seq<Record>, socket: nat)
    requires forall r :: r in records ==> !(r.cause.Presence? && r.write.to == socket)
    ensures Notices(records, socket) == []
  {
    if records != [] {
      NoNotices(records[1..], socket);
    }
  }

  // Told its slot once and first, then in turn that the peer joined and left; the last word is true.
  predicate WellNotified(notices: seq<Packet>, role: Role, peerHere: bool) {
    && notices != [] && notices[0] == ConnectedAs(role)
    && (forall i :: 1 <= i < |notices| ==>
          notices[i] == if i % 2 == 1 then PeerJoined(Peer(role)) else PeerLeft(Peer(role)))
    && (|notices| % 2 == 0 <==> peerHere)
  }

  predicate PresenceInv(s: Server, log: seq<Record>) {
    && ServerInv(s)
    && (forall r :: r in log ==> r.write.to in s.seen)
    && (forall role :: role in s.slots ==> WellNotified(Notices(log, s.slots[role].socket), role,
                                                        Peer(role) in s.slots))
  }

  lemma WritesToSeen(env: Env, parse: Parser, s: Server, e: SocketEvent)
    requires ServerInv(s) && Enabled(s, e)
    ensures forall r :: r in Step(env, parse, s, e).1 ==> r.write.to in Step(env, parse, s, e).0.seen
  {
    hide Handled, Answer, Fits, IsBlank;
    if e.Data? {
      HandledOk(env, parse, e.role, s.slots[e.role].socket, Occupant(s, Peer(e.role)),
                SplitLines(s.slots[e.role].buffer + e.chunk).lines);
    }
  }

  lemma DataKeepsPresence(env: Env, parse: Parser, s: Server, role: Role, chunk: string, log: seq<Record>)
    requires PresenceInv(s, log) && role in s.slots && !s.down
    ensures var (s', now) := Step(env, parse, s, Data(role, chunk));
            forall r :: r in s'.slots ==> WellNotified(Notices(log + now, s'.slots[r].socket), r, Peer(r) in s'.slots)
  {
    hide Handled, Fed, Fits, WellNotified, Notices;
    var (s', now) := Step(env, parse, s, Data(role, chunk));
    forall r | r in s'.slots
      ensures WellNotified(Notices(log + now, s'.slots[r].socket), r, Peer(r) in s'.slots)
    {
      forall x | x in now
        ensures !x.cause.Presence?
      {
        DataNotices(env, parse, s, role, chunk, x);
      }
      var before := Notices(log, s.slots[r].socket);
      NoNotices(now, s.slots[r].socket);
      NoticesConcat(log, now, s.slots[r].socket);
      assert before + [] == before;
    }
  }

  lemma DataNotices(env: Env, parse: Parser, s: Server, role: Role, chunk: string, x: Record)
    requires ServerInv(s) && role in s.slots && x in OnData(env, parse, s, role, chunk).1
    ensures !x.cause.Presence?
  {
    hide Handled, Answer, Fits, IsBlank;
    HandledOk(env, parse, role, s.slots[role].socket, Occupant(s, Peer(role)),
              SplitLines(s.slots[role].buffer + chunk).lines);
  }

  lemma OneMore(notices: seq<Packet>, role: Role, peerHere: bool)
    requires WellNotified(notices, role, peerHere)
    ensures WellNotified(notices + [if peerHere then PeerLeft(Peer(role)) else PeerJoined(Peer(role))], role, !peerHere)
  {
  }

  lemma CloseKeepsPresence(s: Server, role: Role, log: seq<Record>)
    requires PresenceInv(s, log) && role in s.slots
    ensures var (s', now) := OnClose(s, role);
            forall r :: r in s'.slots ==> WellNotified(Notices(log + now, s'.slots[r].socket), r, Peer(r) in s'.slots)
  {
    hide Fits, WellNotified;
    var (s', now) := OnClose(s, role);
    forall r | r in s'.slots
      ensures WellNotified(Notices(log + now, s'.slots[r].socket), r, Peer(r) in s'.slots)
    {
      assert r == Peer(role);
      NoticesConcat(log, now, s.slots[r].socket);
      assert Notices(now, s.slots[r].socket) == [PeerLeft(role)];
      OneMore(Notices(log, s.slots[r].socket), r, true);
    }
  }

  lemma ConnectKeepsPresence(s: Server, socket: nat, log: seq<Record>)
    requires PresenceInv(s, log) && socket !in s.seen
    ensures var (s', now) := OnConnect(s, socket);
            forall r :: r in s'.slots ==> WellNotified(Notices(log + now, s'.slots[r].socket), r, Peer(r) in s'.slots)
  {
    hide Fits, WellNotified, Notices;
    var (s', now) := OnConnect(s, socket);
    NoNotices(log, socket);
    forall r | r in s'.slots
      ensures WellNotified(Notices(log + now, s'.slots[r].socket), r, Peer(r) in s'.slots)
    {
      var x := s'.slots[r].socket;
      NoticesConcat(log, now, x);
      match FreeSlot(s)
      case None =>
        NoNotices(now, x);
        assert Notices(log, x) + [] == Notices(log, x);
      case Some(role) =>
        if r == role {
          Greeting(s, socket, role);
          assert [] + Notices(now, socket) == Notices(now, socket);
        } else {
          NewsOfPeer(s, socket, role);
          OneMore(Notices(log, x), r, false);
        }
    }
  }

  lemma Greeting(s: Server, socket: nat, role: Role)
    requires ServerInv(s) && socket !in s.seen && FreeSlot(s) == Some(role)
    ensures WellNotified(Notices(OnConnect(s, socket).1, socket), role, Peer(role) in s.slots)
  {
    var now := OnConnect(s, socket).1;
    if Peer(role) in s.slots {
      assert Notices(now[1..], socket) == Notices(now[1..][1..], socket);
      assert Notices(now, socket) == [ConnectedAs(role), PeerJoined(Peer(role))];
    } else {
      assert Notices(now, socket) == [ConnectedAs(role)];
    }
  }

  lemma NewsOfPeer(s: Server, socket: nat, role: Role)
    requires ServerInv(s) && socket !in s.seen && FreeSlot(s) == Some(role) && Peer(role) in s.slots
    ensures Notices(OnConnect(s, socket).1, s.slots[Peer(role)].socket) == [PeerJoined(role)]
  {
    var now, x := OnConnect(s, socket).1, s.slots[Peer(role)].socket;
    assert Notices(now, x) == Notices(now[1..], x);
    assert Notices(now[1..], x) == [PeerJoined(role)] + Notices(now[1..][1..], x);
  }

  lemma StepKeepsPresence(env: Env, parse: Parser, s: Server, e: SocketEvent, log: seq<Record>)
    requires PresenceInv(s, log) && Enabled(s, e)
    ensures PresenceInv(Step(env, parse, s, e).0, log + Step(env, parse, s, e).1)
  {
    hide OnData, OnConnect, OnClose, WellNotified, Notices, ServerInv;
    StepKeepsInv(env, parse, s, e);
    WritesToSeen(env, parse, s, e);
    match e
    case Connect(socket) => ConnectKeepsPresence(s, socket, log);
    case Data(role, chunk) => DataKeepsPresence(env, parse, s, role, chunk, log);
    case Close(role) => CloseKeepsPresence(s, role, log);
  }

  lemma {:induction false} RunKeepsPresence(env: Env, parse: Parser, s: Server, events: seq<SocketEvent>,
                                            log: seq<Record>)
    requires PresenceInv(s, log)
    ensures PresenceInv(Run(env, parse, s, events).0, log + Run(env, parse, s, events).1)
    decreases |events|
  {
    hide PresenceInv, Step, Enabled;
    if events == [] {
      assert log + [] == log;
    } else if Enabled(s, events[0]) {
      var (s1, now) := Step(env, parse, s, events[0]);
      StepKeepsPresence(env, parse, s, events[0], log);
      RunKeepsPresence(env, parse, s1, events[1..], log + now);
      assert log + now + Run(env, parse, s1, events[1..]).1 == log + (now + Run(env, parse, s1, events[1..]).1);
    } else {
      RunKeepsPresence(env, parse, s, events[1..], log);
    }
  }

  // Over every run: whoever holds a slot was told which one it is, once and before anything else,
  // and then PEER_JOINED and PEER_LEFT in turn, the last of which says whether the other slot is
  // taken now.
  lemma PresenceCoherence(env: Env, parse: Parser, events: seq<SocketEvent>, role: Role)
    ensures var (s, records) := Run(env, parse, INITIAL, events);
            role in s.slots ==> WellNotified(Notices(records, s.slots[role].socket), role, Peer(role) in s.slots)
  {
    hide Notices, WellNotified, Run;
    RunKeepsPresence(env, parse, INITIAL, events, []);
    assert [] + Run(env, parse, INITIAL, events).1 == Run(env, parse, INITIAL, events).1;
  }

  // ---- Chat frames ----------------------------------------------------------------------------------------

  function ChatFrame(role: Role, text: string): string {
    Encode(ChatEntries(Name(role), text))
  }

  // The server's limit for a chat frame: one byte above the frame size, that is 65479 bytes for the text and
  // what escaping adds to it.
  lemma OneFrame(role: Role, text: string, chunks: seq<string>)
    requires Concat(chunks) == ChatFrame(role, text)
    ensures var got, line := FeedAll("", chunks, MAX_FRAME_SIZE), Stringify(ChatEntries(Name(role), text));
            && (got.failed <==> ByteLength(ChatFrame(role, text)) > 65537)
            && (got.failed <==> ByteLength(text) + EscapeCost(text) > 65479)
            && (!got.failed ==> got.delivered == [line] && got.residue == "")
  {
    hide Stringify, FeedAll, SplitLines, Utf8, ChatEntries, Name, Parse, EscapeCost, Listed, Property;
    var es := ChatEntries(Name(role), text);
    assert Wire([es]) == Encode(es) + Wire([]) == Encode(es);
    DeliveredTexts([es], chunks, MAX_FRAME_SIZE);
    OversizedTexts([es], MAX_FRAME_SIZE);
    assert Texts([es]) == [Stringify(es)];
    Sizes(Stringify(es), "\n");
    AsciiByteLength("\n");
    ChatLineExactly(Name(role), text);
    NameSize(role);
  }

  lemma ChatObject(role: Role, text: string)
    ensures AllSafe(ChatEntries(Name(role), text))
    ensures ObjectOf(ChatEntries(Name(role), text)) ==
      map["type" := Str("CHAT"), "version" := Num(PROTOCOL_VERSION), "sender" := Str(Name(role)), "text" := Str(text)]
  {
    hide Name;
    var es := ChatEntries(Name(role), text);
    PutTwo(map[], es[0], es[1], es[2..]);
    var o := map[es[0].name := es[0].value][es[1].name := es[1].value];
    PutTwo(o, es[2], es[3], []);
    assert es == [es[0], es[1]] + es[2..] && es[2..] == [es[2], es[3]] + [];
    PutNone(o[es[2].name := es[2].value][es[3].name := es[3].value]);
  }

  // A chat line of non-blank text whose frame the client finds small enough: however it is chunked on
  // the way to the server, the server delivers the one line, accepts it and relays the very same
  // frame, and the receiving client delivers the one line again.
  lemma ChatIsRelayedVerbatim(env: Env, parse: Parser, role: Role, self: nat, peer: nat, text: string,
                              chunks: seq<string>, chunks': seq<string>)
    requires ParsesFlat(parse) && !IsBlank(text)
    requires ByteLength(ChatFrame(role, text)) <= MAX_FRAME_SIZE
    requires Concat(chunks) == ChatFrame(role, text) && Concat(chunks') == ChatFrame(role, text)
    ensures var atServer, atPeer := FeedAll("", chunks, MAX_FRAME_SIZE), FeedAll("", chunks', MAX_FRAME_SIZE);
            && !atServer.failed && |atServer.delivered| == 1 && !IsBlank(atServer.delivered[0])
            && Answer(env, parse, role, self, Some(peer), atServer.delivered[0]) == Some(Write(peer, Chat(role, text)))
            && RelayedText(Chat(role, text)) == ChatFrame(role, text)
            && atPeer == atServer
  {
    hide Stringify, FeedAll, Utf8, ChatEntries, Name, ObjectOf, IsBlank, Concat, AllSafe;
    OneFrame(role, text, chunks);
    OneFrame(role, text, chunks');
    var es := ChatEntries(Name(role), text);
    StringifyHasNoNewline(es);
    ChatObject(role, text);
    ChatAccepted(env, role, text);
    assert parse(Stringify(es)) == Some(Obj(ObjectOf(es)));
  }

  lemma ChatAccepted(env: Env, role: Role, text: string)
    requires !IsBlank(text)
    ensures var o := map["type" := Str("CHAT"), "version" := Num(PROTOCOL_VERSION), "sender" := Str(Name(role)),
                         "text" := Str(text)];
            ValidateMessage(env, Obj(o)).Valid? && TextOf(o, "type") == "CHAT" && TextOf(o, "text") == text
  {
    hide Name;
    assert !IsJsSpace("CHAT"[0]);
  }

  // ---- Which relayed lines fit -----------------------------------------------------------------------------

  lemma OneLine(line: string, chunks: seq<string>)
    requires '\n' !in line && Concat(chunks) == line + "\n"
    ensures var got := FeedAll("", chunks, MAX_FRAME_SIZE);
            && (got.failed <==> !Fits(line, MAX_FRAME_SIZE))
            && (!got.failed ==> got.delivered == [line] && got.residue == "")
  {
    hide FeedAll, SplitLines, Fits;
    assert "" + Concat(chunks) == Unsplit([line], "") by {
      assert [line][1..] == [];
    }
    SplitUnsplit([line], "");
    EmptyFits();
    ChunkingInvariance("", chunks, MAX_FRAME_SIZE);
    FramesFit(line + "\n", MAX_FRAME_SIZE);
  }

  // A line the server took in and passes on unchanged always fits its receiver. A chat line does
  // exactly if it still fits with the server's version and sender in it.
  lemma RelayedFits(env: Env, parse: Parser, role: Role, self: nat, peer: Option<nat>, line: string,
                    chunks: seq<string>)
    requires Fits(line, MAX_FRAME_SIZE) && '\n' !in line
    requires Answer(env, parse, role, self, peer, line).Some?
    requires var p := Answer(env, parse, role, self, peer, line).value.packet;
             (p.Original? || p.Chat?) && Concat(chunks) == RelayedText(p)
    ensures var p := Answer(env, parse, role, self, peer, line).value.packet;
            && (p.Original? ==>
                  && !FeedAll("", chunks, MAX_FRAME_SIZE).failed
                  && FeedAll("", chunks, MAX_FRAME_SIZE).delivered == [line])
            && (p.Chat? ==>
                  (!FeedAll("", chunks, MAX_FRAME_SIZE).failed <==>
                   ByteLength(Stringify(ChatEntries(Name(role), p.text))) <= MAX_FRAME_SIZE))
  {
    hide FeedAll, Fits, Name, Stringify, ChatEntries, Utf8, ValidateMessage;
    OriginalExactly(env, parse, role, self, peer, line);
    ChatExactly(env, parse, role, self, peer, line);
    var p := Answer(env, parse, role, self, peer, line).value.packet;
    if p.Original? {
      OneLine(line, chunks);
    } else {
      StringifyHasNoNewline(ChatEntries(Name(role), p.text));
      OneLine(Stringify(ChatEntries(Name(role), p.text)), chunks);
      FitsMeans(Stringify(ChatEntries(Name(role), p.text)));
    }
  }

  lemma FitsMeans(line: string)
    ensures Fits(line, MAX_FRAME_SIZE) <==> ByteLength(line) <= MAX_FRAME_SIZE
  {
  }

  // ---- A line that does not fit any more -------------------------------------------------------------------

  lemma PropertyBytes(name: string, value: string)
    requires IsAscii(name)
    ensures ByteLength(Property(name, value)) == |name| + 3 + ByteLength(value)
  {
    hide Utf8;
    AsciiByteLength("\"" + name + "\":");
    Sizes("\"" + name + "\":", value);
  }

  lemma ListedFour(a: string, b: string, c: string, d: string)
    ensures Listed([a, b, c, d]) == a + "," + (b + "," + (c + "," + d))
    ensures Listed([a, d]) == a + "," + d
  {
    assert [d][1..] == [] && [a, d][1..] == [d] && [c, d][1..] == [d] && [b, c, d][1..] == [c, d];
    assert [a, b, c, d][1..] == [b, c, d];
    assert Listed([c, d]) == c + "," + d && Listed([b, c, d]) == b + "," + Listed([c, d]);
  }

  lemma CommaBytes(s: string, t: string)
    ensures ByteLength(s + "," + t) == ByteLength(s) + 1 + ByteLength(t)
  {
    hide Utf8;
    AsciiByteLength(",");
    Sizes(s + ",", t);
    Sizes(s, ",");
  }

  lemma BracesBytes(s: string)
    ensures ByteLength("{" + s + "}") == ByteLength(s) + 2
  {
    hide Utf8;
    AsciiByteLength("{");
    AsciiByteLength("}");
    Sizes("{" + s, "}");
    Sizes("{", s);
  }

  // The properties of a chat message in their order.
  function ChatParts(sender: string, text: string): seq<string> {
    [Property("type", Literal("CHAT")), Property("version", "1"), Property("sender", Literal(sender)),
     Property("text", Literal(text))]
  }

  lemma ChatNames()
    ensures NeedsNoEscape("type") && NeedsNoEscape("version") && NeedsNoEscape("sender") && NeedsNoEscape("text")
    ensures IsAscii("type") && IsAscii("version") && IsAscii("sender") && IsAscii("text")
  {
  }

  lemma ChatValues()
    ensures ByteLength(Literal("CHAT")) == 6 && ByteLength("1") == 1
  {
    assert NeedsNoEscape("CHAT") && IsAscii("CHAT") && IsAscii("1");
    hide Utf8, EscapeCost, NeedsNoEscape, IsAscii, Quoted;
    QuotedBytes("CHAT");
    LettersCostNothing("CHAT");
    AsciiByteLength("CHAT");
    AsciiByteLength("1");
  }

  // The line of a chat message and its size: these properties and no space, whatever the strings contain.
  lemma ChatLineExactly(sender: string, text: string)
    ensures var line := Stringify(ChatEntries(sender, text));
            && line == "{" + Listed(ChatParts(sender, text)) + "}"
            && ByteLength(line) ==
                 49 + ByteLength(sender) + EscapeCost(sender) + ByteLength(text) + EscapeCost(text)
  {
    hide NeedsNoEscape, Quoted, Property, Listed, Stringify, Utf8, EscapeCost, IsAscii;
    ChatNames();
    ChatValues();
    var es, parts := ChatEntries(sender, text), ChatParts(sender, text);
    StringifyExactly(es);
    OneIsDecimal();
    assert Properties(es) == parts;
    PropertyBytes("type", Literal("CHAT"));
    PropertyBytes("version", "1");
    PropertyBytes("sender", Literal(sender));
    PropertyBytes("text", Literal(text));
    QuotedBytes(sender);
    QuotedBytes(text);
    ListedFour(parts[0], parts[1], parts[2], parts[3]);
    CommaBytes(parts[2], parts[3]);
    CommaBytes(parts[1], parts[2] + "," + parts[3]);
    CommaBytes(parts[0], parts[1] + "," + (parts[2] + "," + parts[3]));
    BracesBytes(Listed(parts));
  }

  // What a program other than the client may write: a chat message without version and sender.
  function ForeignEntries(text: string): seq<Entry> {
    [Entry("type", Str("CHAT")), Entry("text", Str(text))]
  }

  lemma ForeignLine(text: string)
    ensures ByteLength(Stringify(ForeignEntries(text))) == 25 + ByteLength(text) + EscapeCost(text)
  {
    hide NeedsNoEscape, Quoted, Property, Listed, Stringify, Utf8, EscapeCost, IsAscii;
    ChatNames();
    ChatValues();
    var es := ForeignEntries(text);
    var parts := [Property("type", Literal("CHAT")), Property("text", Literal(text))];
    StringifyExactly(es);
    assert Properties(es) == parts;
    PropertyBytes("type", Literal("CHAT"));
    PropertyBytes("text", Literal(text));
    QuotedBytes(text);
    ListedFour(parts[0], parts[0], parts[0], parts[1]);
    CommaBytes(parts[0], parts[1]);
    BracesBytes(Listed(parts));
  }

  lemma {:induction false} LettersCostNothing(s: string)
    requires NeedsNoEscape(s)
    ensures EscapeCost(s) == 0
  {
    if s != "" {
      LettersCostNothing(s[1..]);
    }
  }

  lemma NameSize(role: Role)
    ensures ByteLength(Name(role)) == 8 && EscapeCost(Name(role)) == 0
  {
    AsciiByteLength(Name(role));
    LettersCostNothing(Name(role));
  }

  lemma ForeignObject(text: string)
    ensures AllSafe(ForeignEntries(text))
    ensures ObjectOf(ForeignEntries(text)) == map["type" := Str("CHAT"), "text" := Str(text)]
  {
    var es := ForeignEntries(text);
    PutTwo(map[], es[0], es[1], []);
    assert es == [es[0], es[1]] + [];
    PutNone(map["type" := Str("CHAT")]["text" := Str(text)]);
  }

  lemma ForeignAccepted(env: Env, text: string)
    requires !IsBlank(text)
    ensures var o := map["type" := Str("CHAT"), "text" := Str(text)];
            ValidateMessage(env, Obj(o)).Valid? && TextOf(o, "type") == "CHAT" && TextOf(o, "text") == text
  {
    assert !IsJsSpace("CHAT"[0]);
  }

  // 65511 letters in such a line make exactly the largest frame the server takes. The frame it
  // relays is 32 bytes larger, and no receiver takes it, however it is cut.
  lemma StampedFrameCanOverflow(env: Env, parse: Parser, role: Role, self: nat, peer: nat, chunks: seq<string>)
    requires ParsesFlat(parse)
    requires Concat(chunks) == RelayedText(Chat(role, seq(65511, _ => 'a')))
    ensures var line := Stringify(ForeignEntries(seq(65511, _ => 'a')));
            && ByteLength(line) == MAX_FRAME_SIZE
            && Answer(env, parse, role, self, Some(peer), line) == Some(Write(peer, Chat(role, seq(65511, _ => 'a'))))
            && FeedAll("", chunks, MAX_FRAME_SIZE).failed
  {
    hide Stringify, FeedAll, Utf8, ForeignEntries, ChatEntries, Name, ObjectOf, Concat, ValidateMessage,
         EscapeCost, AllSafe;
    var text := seq(65511, _ => 'a');
    var line := Stringify(ForeignEntries(text));
    assert text[0] == 'a' && !IsJsSpace(text[0]);
    ForeignLine(text);
    ChatLineExactly(Name(role), text);
    NameSize(role);
    LettersCostNothing(text);
    AsciiByteLength(text);
    ForeignObject(text);
    ForeignAccepted(env, text);
    assert parse(line) == Some(Obj(ObjectOf(ForeignEntries(text))));
    StringifyHasNoNewline(ChatEntries(Name(role), text));
    OneLine(Stringify(ChatEntries(Name(role), text)), chunks);
    FitsMeans(Stringify(ChatEntries(Name(role), text)));
  }

  // ---- A line without an answer -------------------------------------------------------------------------------

  const UNPRINTABLE := Nested({"toString"})

  const UNPRINTABLE_VERSION := "{\"type\":\"CHAT\"," + "\"text\":\"x\"," + "\"version\":" + "{\"toString\":0}}"

  // JSON.parse of that line.
  ghost predicate ParsesUnprintable(parse: Parser) {
    parse(UNPRINTABLE_VERSION) == Some(Obj(map["type" := Str("CHAT"), "text" := Str("x"), "version" := UNPRINTABLE]))
  }

  // A line of characters that need no more than a byte each.
  predicate IsShort(line: string, length: nat) {
    IsAscii(line) && '\n' !in line && |line| <= length
  }

  lemma ShortConcat(s: string, t: string, m: nat, n: nat)
    requires IsShort(s, m) && IsShort(t, n)
    ensures IsShort(s + t, m + n)
  {
  }

  lemma UnprintableVersionIsShort()
    ensures IsShort(UNPRINTABLE_VERSION, 60) && UNPRINTABLE_VERSION != "" && UNPRINTABLE_VERSION[0] == '{'
  {
    var type', text, version, value := "{\"type\":\"CHAT\",", "\"text\":\"x\",", "\"version\":", "{\"toString\":0}}";
    assert IsShort(type', 15) && IsShort(text, 15) && IsShort(version, 15) && IsShort(value, 15) && type'[0] == '{';
    hide IsShort;
    ShortConcat(type', text, 15, 15);
    ShortConcat(type' + text, version, 30, 15);
    ShortConcat(type' + text + version, value, 45, 15);
  }

  lemma UnprintableIsFatal(env: Env, parse: Parser)
    requires ParsesUnprintable(parse)
    ensures IsFatal(env, parse, UNPRINTABLE_VERSION)
  {
    hide ValidateMessage;
    UnprintableVersionIsShort();
    assert !IsJsSpace('{');
    ThrowsExactly(env, parse(UNPRINTABLE_VERSION).value);
  }

  lemma OneShortLine(line: string)
    requires IsShort(line, MAX_FRAME_SIZE)
    ensures Fed("", line + "\n", MAX_FRAME_SIZE) == (Success([line]), "")
  {
    hide Fits, SplitLines, IsAscii;
    SplitUnsplit([line], "");
    assert [line][1..] == [];
    assert "" + (line + "\n") == Unsplit([line], "");
    EmptyFits();
    AsciiByteLength(line);
    FitsMeans(line);
  }

  // One client that sends such a line ends the server before anything else it sends is handled.
  lemma UnprintableVersionEndsServer(env: Env, parse: Parser, later: seq<SocketEvent>)
    requires ParsesUnprintable(parse)
    ensures var first := [Connect(0), Data(ClientA, UNPRINTABLE_VERSION + "\n")];
            var (s, records) := Run(env, parse, INITIAL, first + later);
            s.down && records == [Told(0, ConnectedAs(ClientA))]
  {
    hide Fed, IsFatal, IsBlank, Answer;
    var e, d := Connect(0), Data(ClientA, UNPRINTABLE_VERSION + "\n");
    UnprintableIsFatal(env, parse);
    UnprintableVersionIsShort();
    OneShortLine(UNPRINTABLE_VERSION);
    FatalMeans(env, parse, ClientA, 0, None, UNPRINTABLE_VERSION);
    var s1 := Step(env, parse, INITIAL, e).0;
    var (s2, records) := Step(env, parse, s1, d);
    assert AnyFatal(env, parse, [UNPRINTABLE_VERSION]);
    assert records == [];
    DownHandlesNothing(env, parse, s2, later);
    assert ([e, d] + later)[1..] == [d] + later && ([d] + later)[1..] == later;
    assert Run(env, parse, s1, [d] + later) == (s2, [] + []);
  }
}
