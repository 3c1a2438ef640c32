// The relay server as functions on values: slots, routing of lines, presence notices
// (src/server.js). RelayServers.RelayServer is the class whose methods these functions specify.
module Relaying {
  import opened Wrappers
  import opened Text
  import opened Crypto
  import opened Messages
  import opened Validation
  import opened Framing
  import opened Sessions
  import opened JsonText
  import opened Verdicts
  import HonestNetwork

  // ---- Data ------------------------------------------------------------------------------------------

  // JSON.parse, None where it throws.
  type Parser = string -> Option<Json>

  // Sockets are told apart by number.
  datatype Connection = Connection(socket: nat, buffer: string, closing: bool)

  // down: an exception nobody catches ended the process.
  datatype Server = Server(slots: map<Role, Connection>, seen: set<nat>, down: bool)

  const INITIAL := Server(map[], {}, false)

  datatype Problem =
    | ServerFull | FrameTooLarge | InvalidJson | InvalidStructure(reason: Reason)
    | SenderMismatch | RecipientMismatch | TypeNotAccepted

  // What the server writes. The wording of ERROR messages is not modelled.
  datatype Packet =
    | ConnectedAs(role: Role)
    | PeerJoined(role: Role)
    | PeerLeft(role: Role)
    | Original(line: string)
    | Chat(sender: Role, text: string)
    | Undelivered(role: Role)
    | ErrorNotice(problem: Problem)

  datatype Write = Write(to: nat, packet: Packet)

  // Why something was written. Handling is one line of a client, with who was in the other slot.
  datatype Cause =
    | Presence
    | Refusal
    | Handling(socket: nat, role: Role, peer: Option<nat>, line: string)

  datatype Record = Record(write: Write, cause: Cause)

  datatype SocketEvent = Connect(socket: nat) | Data(role: Role, chunk: string) | Close(role: Role)

  // createChatMessage, encoded
  function ChatEntries(sender: string, text: string): seq<Entry> {
    [Entry("type", Str("CHAT")), Entry("version", Num(PROTOCOL_VERSION)), Entry("sender", Str(sender)),
     Entry("text", Str(text))]
  }

  // The text of a relayed packet on the wire.
  function RelayedText(p: Packet): string
    requires p.Original? || p.Chat?
  {
    match p
    case Original(line) => line + "\n"
    case Chat(sender, text) => Encode(ChatEntries(Name(sender), text))
  }

  // ---- One line ----------------------------------------------------------------------------------------

  // Forwarded to the other slot, or reported back when it is empty.
  function Forward(role: Role, self: nat, peer: Option<nat>, p: Packet): Write {
    match peer
    case Some(x) => Write(x, p)
    case None => Write(self, Undelivered(Peer(role)))
  }

  function Refuse(self: nat, problem: Problem): Write {
    Write(self, ErrorNotice(problem))
  }

  // What a validated message from a slot leads to.
  function Dispatch(role: Role, self: nat, peer: Option<nat>, line: string, o: Object): Write {
    var kind := TextOf(o, "type");
    if IsHandshakeType(kind) then
      if TextOf(o, "sender") != Name(role) then Refuse(self, SenderMismatch)
      else if kind != "HELLO" && TextOf(o, "recipient") != Name(Peer(role)) then Refuse(self, RecipientMismatch)
      else Forward(role, self, peer, Original(line))
    else if kind != "CHAT" then Refuse(self, TypeNotAccepted)
    else Forward(role, self, peer, Chat(role, TextOf(o, "text")))
  }

  // What a non-blank line from a slot leads to; None where its validation throws.
  function Answer(env: Env, parse: Parser, role: Role, self: nat, peer: Option<nat>, line: string): Option<Write> {
    match parse(line)
    case None => Some(Refuse(self, InvalidJson))
    case Some(j) =>
      match ValidateMessage(env, j)
      case Throws => None
      case Invalid(reason) => Some(Refuse(self, InvalidStructure(reason)))
      case Valid => Some(Dispatch(role, self, peer, line, j.fields))
  }

  // A line whose validation throws.
  predicate IsFatal(env: Env, parse: Parser, line: string) {
    !IsBlank(line) && parse(line).Some? && ValidateMessage(env, parse(line).value).Throws?
  }

  predicate AnyFatal(env: Env, parse: Parser, lines: seq<string>) {
    exists i :: 0 <= i < |lines| && IsFatal(env, parse, lines[i])
  }

  // The lines before the first fatal one.
  function Calm(env: Env, parse: Parser, lines: seq<string>): seq<string> {
    if lines == [] || IsFatal(env, parse, lines[0]) then [] else [lines[0]] + Calm(env, parse, lines[1..])
  }

  lemma {:induction false} CalmIsPrefix(env: Env, parse: Parser, lines: seq<string>)
    ensures Calm(env, parse, lines) <= lines
    ensures Calm(env, parse, lines) == lines <==> !AnyFatal(env, parse, lines)
    ensures AnyFatal(env, parse, lines) ==> IsFatal(env, parse, lines[|Calm(env, parse, lines)|])
  {
    hide IsFatal;
    if lines != [] {
      CalmIsPrefix(env, parse, lines[1..]);
      NextFatal(env, parse, lines);
      assert lines == [lines[0]] + lines[1..];
    }
  }

  lemma NextFatal(env: Env, parse: Parser, lines: seq<string>)
    requires lines != []
    ensures AnyFatal(env, parse, lines) <==> IsFatal(env, parse, lines[0]) || AnyFatal(env, parse, lines[1..])
  {
    hide IsFatal;
    if i :| 0 <= i < |lines[1..]| && IsFatal(env, parse, lines[1..][i]) {
      assert IsFatal(env, parse, lines[i + 1]);
    }
    if i :| 1 <= i < |lines| && IsFatal(env, parse, lines[i]) {
      assert IsFatal(env, parse, lines[1..][i - 1]);
    }
  }

  lemma {:induction false} CalmConcat(env: Env, parse: Parser, xs: seq<string>, ys: seq<string>)
    ensures Calm(env, parse, xs + ys) ==
            if AnyFatal(env, parse, xs) then Calm(env, parse, xs) else xs + Calm(env, parse, ys)
    ensures AnyFatal(env, parse, xs + ys) <==> AnyFatal(env, parse, xs) || AnyFatal(env, parse, ys)
  {
    hide IsFatal;
    if xs == [] {
      assert xs + ys == ys;
    } else {
      assert (xs + ys)[1..] == xs[1..] + ys && (xs + ys)[0] == xs[0];
      CalmConcat(env, parse, xs[1..], ys);
      NextFatal(env, parse, xs);
      NextFatal(env, parse, xs + ys);
      assert xs == [xs[0]] + xs[1..];
      assert [xs[0]] + (xs[1..] + Calm(env, parse, ys)) == xs + Calm(env, parse, ys);
    }
  }

  // The loop over the lines: an exception ends it, and the process.
  function Handled(env: Env, parse: Parser, role: Role, self: nat, peer: Option<nat>, lines: seq<string>): seq<Record> {
    if lines == [] then []
    else if IsBlank(lines[0]) then Handled(env, parse, role, self, peer, lines[1..])
    else
      match Answer(env, parse, role, self, peer, lines[0])
      case None => []
      case Some(w) =>
        [Record(w, Handling(self, role, peer, lines[0]))] + Handled(env, parse, role, self, peer, lines[1..])
  }

  // ---- Events ---------------------------------------------------------------------------------------------

  function FreeSlot(s: Server): Option<Role> {
    if ClientA !in s.slots then Some(ClientA) else if ClientB !in s.slots then Some(ClientB) else None
  }

  function Occupant(s: Server, role: Role): Option<nat> {
    if role in s.slots then Some(s.slots[role].socket) else None
  }

  function Told(to: nat, p: Packet): Record {
    Record(Write(to, p), Presence)
  }

  function OnConnect(s: Server, socket: nat): (Server, seq<Record>) {
    match FreeSlot(s)
    case None => (s.(seen := s.seen + {socket}), [Record(Write(socket, ErrorNotice(ServerFull)), Refusal)])
    case Some(role) =>
      (s.(slots := s.slots[role := Connection(socket, "", false)], seen := s.seen + {socket}),
       [Told(socket, ConnectedAs(role))] +
       match Occupant(s, Peer(role))
       case None => []
       case Some(x) => [Told(x, PeerJoined(role)), Told(socket, PeerJoined(Peer(role)))])
  }

  function OnData(env: Env, parse: Parser, s: Server, role: Role, chunk: string): (Server, seq<Record>)
    requires role in s.slots
  {
    var c := s.slots[role];
    if c.closing then (s, [])
    else
      var (r, rest) := Fed(c.buffer, chunk, MAX_FRAME_SIZE);
      match r
      case Failure(_) =>
        (s.(slots := s.slots[role := c.(buffer := rest, closing := true)]),
         [Record(Write(c.socket, ErrorNotice(FrameTooLarge)), Refusal)])
      case Success(lines) =>
        (s.(slots := s.slots[role := c.(buffer := rest)], down := AnyFatal(env, parse, lines)),
         Handled(env, parse, role, c.socket, Occupant(s, Peer(role)), lines))
  }

  function OnClose(s: Server, role: Role): (Server, seq<Record>) {
    (s.(slots := s.slots - {role}),
     match Occupant(s, Peer(role)) case None => [] case Some(x) => [Told(x, PeerLeft(role))])
  }

  // A chunk that completes or leaves a frame that is too large: one error, and nothing of this connection is
  // read any more. Any other chunk of a connection that is not closing leaves the rest of its last line.
  lemma FrameLimitExactly(env: Env, parse: Parser, s: Server, role: Role, chunk: string)
    requires role in s.slots
    ensures var (s', records) := OnData(env, parse, s, role, chunk);
            var c := s.slots[role];
            && (c.closing ==> s' == s && records == [])
            && (!c.closing && Oversized(c.buffer + chunk, MAX_FRAME_SIZE) ==>
                  && records == [Record(Write(c.socket, ErrorNotice(FrameTooLarge)), Refusal)]
                  && s' == s.(slots := s.slots[role := Connection(c.socket, "", true)]))
            && (!c.closing && !Oversized(c.buffer + chunk, MAX_FRAME_SIZE) ==>
                  exists lines, rest :: IsSplit(c.buffer + chunk, lines, rest)
                    && s' == s.(slots := s.slots[role := Connection(c.socket, rest, false)],
                                down := AnyFatal(env, parse, lines))
                    && records == Handled(env, parse, role, c.socket, Occupant(s, Peer(role)), lines))
  {
    hide Oversized, Handled, AnyFatal, Fits, Unsplit;
    var c := s.slots[role];
    FramesFit(c.buffer + chunk, MAX_FRAME_SIZE);
    var split := SplitLines(c.buffer + chunk);
    SplitExactly(c.buffer + chunk, split.lines, split.partial);
    hide SplitLines;
  }

  // Each socket connects once; data and close come from a socket that holds a slot; nothing happens to a
  // server that is down.
  predicate Enabled(s: Server, e: SocketEvent) {
    !s.down && match e
    case Connect(socket) => socket !in s.seen
    case Data(role, _) => role in s.slots
    case Close(role) => role in s.slots
  }

  function Step(env: Env, parse: Parser, s: Server, e: SocketEvent): (Server, seq<Record>)
    requires Enabled(s, e)
  {
    match e
    case Connect(socket) => OnConnect(s, socket)
    case Data(role, chunk) => OnData(env, parse, s, role, chunk)
    case Close(role) => OnClose(s, role)
  }

  // ---- Runs --------------------------------------------------------------------------------------------------

  // The state after the events and everything written on the way; events that cannot happen are skipped.
  function Run(env: Env, parse: Parser, s: Server, events: seq<SocketEvent>): (Server, seq<Record>)
    decreases |events|
  {
    if events == [] then (s, [])
    else if !Enabled(s, events[0]) then Run(env, parse, s, events[1..])
    else
      var (s1, now) := Step(env, parse, s, events[0]);
      var (s2, later) := Run(env, parse, s1, events[1..]);
      (s2, now + later)
  }

  // The chunks the server received from a socket while it held a slot.
  function ChunksFrom(env: Env, parse: Parser, s: Server, events: seq<SocketEvent>, socket: nat): seq<string>
    decreases |events|
  {
    if events == [] then []
    else if !Enabled(s, events[0]) then ChunksFrom(env, parse, s, events[1..], socket)
    else
      (if events[0].Data? && s.slots[events[0].role].socket == socket then [events[0].chunk] else [])
      + ChunksFrom(env, parse, Step(env, parse, s, events[0]).0, events[1..], socket)
  }

  // Occupants are distinct sockets that connected.
  predicate ServerInv(s: Server) {
    && (forall r :: r in s.slots ==>
          && s.slots[r].socket in s.seen
          && '\n' !in s.slots[r].buffer && Fits(s.slots[r].buffer, MAX_FRAME_SIZE))
    && (ClientA in s.slots && ClientB in s.slots ==> s.slots[ClientA].socket != s.slots[ClientB].socket)
  }

  lemma StepKeepsInv(env: Env, parse: Parser, s: Server, e: SocketEvent)
    requires ServerInv(s) && Enabled(s, e)
    ensures ServerInv(Step(env, parse, s, e).0) && s.seen <= Step(env, parse, s, e).0.seen
  {
    hide SplitLines, Handled, Fits;
    EmptyFits();
    if e.Data? {
      FedFits(s.slots[e.role].buffer, e.chunk);
    }
  }

  lemma EmptyFits()
    ensures Fits("", MAX_FRAME_SIZE)
  {
  }

  lemma FedFits(buffer: string, chunk: string)
    ensures '\n' !in Fed(buffer, chunk, MAX_FRAME_SIZE).1 && Fits(Fed(buffer, chunk, MAX_FRAME_SIZE).1, MAX_FRAME_SIZE)
  {
    hide SplitLines;
  }

  // At most two sockets ever hold slots, and a further one changes neither slot.
  lemma ThirdIsTurnedAway(env: Env, parse: Parser, s: Server, socket: nat)
    requires Enabled(s, Connect(socket))
    ensures var (s', records) := Step(env, parse, s, Connect(socket));
            && (|s.slots| == 2 <==> FreeSlot(s).None?)
            && (|s.slots| == 2 ==>
                  s'.slots == s.slots && records == [Record(Write(socket, ErrorNotice(ServerFull)), Refusal)])
            && |s'.slots| <= 2
  {
    TwoSlots(s);
    TwoSlots(Step(env, parse, s, Connect(socket)).0);
  }

  lemma TwoSlots(s: Server)
    ensures |s.slots| <= 2
    ensures |s.slots| == 2 <==> ClientA in s.slots && ClientB in s.slots
  {
    SlotNames(s.slots.Keys);
  }

  lemma SlotNames(roles: set<Role>)
    ensures roles == (if ClientA in roles then {ClientA} else {}) + (if ClientB in roles then {ClientB} else {})
    ensures |roles| == (if ClientA in roles then 1 else 0) + (if ClientB in roles then 1 else 0)
  {
    forall r | r in roles
      ensures r in {ClientA, ClientB}
    {
      assert r.ClientA? || r.ClientB?;
    }
    assert roles == (if ClientA in roles then {ClientA} else {}) + (if ClientB in roles then {ClientB} else {});
  }

  // ---- Routing --------------------------------------------------------------------------------------------------

  // A line is passed on unchanged exactly when it is the JSON of a well-formed handshake message
  // that names this slot as its sender and the other slot as its recipient, if it has one, and the
  // other slot is taken.
  lemma OriginalExactly(env: Env, parse: Parser, role: Role, self: nat, peer: Option<nat>, line: string)
    ensures var w := Answer(env, parse, role, self, peer, line);
            w.Some? && w.value.packet.Original? <==>
              peer.Some? && exists m: Msg ::
                parse(line) == Some(Obj(ToObject(m))) && HonestNetwork.RelayAccepts(env, role, m)
    ensures var w := Answer(env, parse, role, self, peer, line);
            w.Some? && w.value.packet.Original? ==> w == Some(Write(peer.value, Original(line)))
  {
    hide WellFormed, ToObject, FromObject, Name, HandshakeVerdict;
    var w := Answer(env, parse, role, self, peer, line);
    if w.Some? && w.value.packet.Original? {
      var o := parse(line).value.fields;
      assert IsValidHandshake(env, o);
      ValidIsWellFormed(env, o);
      MessageParties(FromObject(o));
      assert HonestNetwork.RelayAccepts(env, role, FromObject(o));
    }
    if m: Msg :| peer.Some? && parse(line) == Some(Obj(ToObject(m))) && HonestNetwork.RelayAccepts(env, role, m) {
      WellFormedIsValid(env, m);
      MessageParties(m);
    }
  }

  lemma MessageParties(m: Msg)
    ensures TextOf(ToObject(m), "sender") == m.sender
    ensures !m.Hello? ==> TextOf(ToObject(m), "recipient") == m.recipient
    ensures TextOf(ToObject(m), "type") == "HELLO" <==> m.Hello?
    ensures IsHandshakeType(TextOf(ToObject(m), "type"))
  {
  }

  // An object that is a chat message: its version is 1 if it has one, and its text is not blank.
  ghost predicate IsChat(o: Object) {
    IsOneOf(o, "type", {"CHAT"}) && VersionIsOneIfAny(o) && Says(o, "text")
  }

  ghost predicate IsChatLine(parse: Parser, line: string) {
    parse(line).Some? && parse(line).value.Obj? && IsChat(parse(line).value.fields)
  }

  lemma ChatIsValid(env: Env, o: Object)
    ensures ValidateMessage(env, Obj(o)).Valid? && TextOf(o, "type") == "CHAT" <==> IsChat(o)
  {
    hide ValidateMessage, Says, Names;
    if !IsHandshakeObject(o) {
      PlainExactly(env, Obj(o));
    }
  }

  // A chat message is passed on exactly for such a line with the other slot taken, under the name of this slot
  // whatever the line claimed, with its text.
  lemma ChatExactly(env: Env, parse: Parser, role: Role, self: nat, peer: Option<nat>, line: string)
    ensures var w := Answer(env, parse, role, self, peer, line);
            w.Some? && w.value.packet.Chat? <==> peer.Some? && IsChatLine(parse, line)
    ensures var w := Answer(env, parse, role, self, peer, line);
            w.Some? && w.value.packet.Chat? ==>
              && w == Some(Write(peer.value, Chat(role, TextOf(parse(line).value.fields, "text"))))
              && !IsBlank(w.value.packet.text)
  {
    hide ValidateMessage, Name, IsIdentity, IsBlank, IsChat;
    if parse(line).Some? {
      ValidIsObject(env, parse(line).value);
      if parse(line).value.Obj? {
        var o := parse(line).value.fields;
        ChatIsValid(env, o);
        ChatSays(o);
      }
    }
  }

  lemma ChatSays(o: Object)
    ensures IsChat(o) ==> IsText(o, "text") && !IsBlank(o["text"].s)
  {
    SaysExactly(o, "text");
    hide IsBlank;
  }

  lemma ValidIsObject(env: Env, j: Json)
    ensures !j.Obj? ==> ValidateMessage(env, j) == Invalid(NotAnObject)
  {
  }

  // The line holds this handshake message.
  ghost predicate Holds(env: Env, parse: Parser, line: string, m: Msg) {
    parse(line) == Some(Obj(ToObject(m))) && WellFormed(env, m)
  }

  // Which answer a line gets: each under its own condition on the line and the slots.
  lemma AnswersExactly(env: Env, parse: Parser, role: Role, self: nat, peer: Option<nat>, line: string)
    ensures var w := Answer(env, parse, role, self, peer, line);
            && (w == Some(Refuse(self, InvalidJson)) <==> parse(line).None?)
            && (forall reason :: w == Some(Refuse(self, InvalidStructure(reason))) <==>
                  parse(line).Some? && ValidateMessage(env, parse(line).value) == Invalid(reason))
            && (w == Some(Refuse(self, SenderMismatch)) <==>
                exists m :: Holds(env, parse, line, m) && m.sender != Name(role))
            && (w == Some(Refuse(self, RecipientMismatch)) <==>
                exists m :: Holds(env, parse, line, m) && m.sender == Name(role) && !m.Hello?
                            && m.recipient != Name(Peer(role)))
            && (w == Some(Refuse(self, TypeNotAccepted)) <==>
                parse(line).Some? && parse(line).value.Obj? && IsPlainMessage(parse(line).value.fields)
                && !IsOneOf(parse(line).value.fields, "type", {"CHAT"}))
            && (w == Some(Write(self, Undelivered(Peer(role)))) <==>
                peer.None? && (IsChatLine(parse, line) ||
                               exists m :: Holds(env, parse, line, m) && HonestNetwork.RelayAccepts(env, role, m)))
  {
    hide ValidateMessage, Name, WellFormed, ToObject, FromObject, IsChat, IsPlainMessage;
    if parse(line).Some? {
      var j := parse(line).value;
      ValidIsObject(env, j);
      if j.Obj? {
        HeldMessage(env, j.fields);
        ChatIsValid(env, j.fields);
        if IsHandshakeObject(j.fields) {
          PlainIsNoHandshake(j.fields);
          assert IsValidHandshake(env, j.fields) ==> Holds(env, parse, line, FromObject(j.fields));
        } else {
          PlainExactly(env, j);
        }
      }
    }
  }

  lemma PlainIsNoHandshake(o: Object)
    requires IsHandshakeObject(o)
    ensures !IsPlainMessage(o) && !IsChat(o)
  {
    hide Says, Names;
  }

  // A valid object of a handshake type is the object of one message, its own.
  lemma HeldMessage(env: Env, o: Object)
    ensures forall m :: WellFormed(env, m) && o == ToObject(m) ==>
              m == FromObject(o) && IsValidHandshake(env, o)
    ensures IsValidHandshake(env, o) ==> WellFormed(env, FromObject(o)) && o == ToObject(FromObject(o))
    ensures forall m :: o == ToObject(m) ==>
              TextOf(o, "sender") == m.sender && (!m.Hello? ==> TextOf(o, "recipient") == m.recipient)
              && (TextOf(o, "type") == "HELLO" <==> m.Hello?) && IsHandshakeType(TextOf(o, "type"))
  {
    hide WellFormed, ToObject, FromObject, IsValidHandshake;
    forall m: Msg | o == ToObject(m)
      ensures WellFormed(env, m) ==> m == FromObject(o) && IsValidHandshake(env, o)
      ensures TextOf(o, "sender") == m.sender && (!m.Hello? ==> TextOf(o, "recipient") == m.recipient)
      ensures (TextOf(o, "type") == "HELLO" <==> m.Hello?) && IsHandshakeType(TextOf(o, "type"))
    {
      FromToObject(m);
      MessageParties(m);
      if WellFormed(env, m) {
        WellFormedIsValid(env, m);
      }
    }
    if IsValidHandshake(env, o) {
      ValidIsWellFormed(env, o);
    }
  }

  // Everything else goes back to the socket the line came from, unless validation throws.
  lemma RestGoesBack(env: Env, parse: Parser, role: Role, self: nat, peer: Option<nat>, line: string)
    ensures var w := Answer(env, parse, role, self, peer, line);
            w.Some? && !(w.value.packet.Original? || w.value.packet.Chat?) ==>
              w.value.to == self && (w.value.packet.ErrorNotice? || w.value.packet == Undelivered(Peer(role)))
    ensures !IsBlank(line) ==> (Answer(env, parse, role, self, peer, line).None? <==> IsFatal(env, parse, line))
  {
    hide ValidateMessage, Name;
  }
}
