// Streams of whole lines: reading a part of one, writing to one, and the lines of the two programs.
module Wires {
  import opened Wrappers
  import opened Text
  import opened Crypto
  import opened Messages
  import opened Validation
  import opened Framing
  import opened JsonText
  import opened Sessions
  import opened WholeSystem
  import Transport
  import RelayRuns
  import Startup
  import ClientMachines
  import Net = HonestNetwork
  import Server = Relaying
  import Queue = ClientQueue

  // ---- Streams of characters --------------------------------------------------------------------

  // Complete lines only, each within the frame limit.
  predicate Whole(text: string) {
    SplitLines(text).partial == "" && AllFit(SplitLines(text).lines, MAX_FRAME_SIZE)
  }

  lemma NothingIsWhole()
    ensures Whole("") && LinesIn("") == []
  {
  }

  // Some part of the stream arrives: it is taken without error, and lines and stream divide what there was.
  lemma ReadPart(buffer: string, text: string, n: nat)
    requires n <= |text| && Whole(buffer + text)
    ensures var (r, rest) := Fed(buffer, text[..n], MAX_FRAME_SIZE);
            && r.Success? && '\n' !in rest && Whole(rest + text[n..])
            && r.value + LinesIn(rest + text[n..]) == LinesIn(buffer + text)
  {
    hide SplitLines, Fits;
    var part, later := buffer + text[..n], text[n..];
    assert part + later == buffer + text by { assert text[..n] + text[n..] == text; }
    SplitResumes(part, later);
    Server.EmptyFits();
    FramesFit(part + later, MAX_FRAME_SIZE);
    FramesFit(part, MAX_FRAME_SIZE);
    if Oversized(part, MAX_FRAME_SIZE) {
      OversizedPersists(part, later, MAX_FRAME_SIZE);
    }
    var lines := SplitLines(SplitLines(part).partial + later).lines;
    assert forall l :: l in lines ==> l in SplitLines(part).lines + lines;
  }

  predicate IsFrame(line: string) {
    '\n' !in line && Fits(line, MAX_FRAME_SIZE)
  }

  // Whole lines are written behind whole lines.
  lemma WriteLines(text: string, lines: seq<string>)
    requires Whole(text) && forall l :: l in lines ==> IsFrame(l)
    ensures Whole(text + Unsplit(lines, "")) && LinesIn(text + Unsplit(lines, "")) == LinesIn(text) + lines
  {
    hide SplitLines, Fits;
    SplitResumes(text, Unsplit(lines, ""));
    assert "" + Unsplit(lines, "") == Unsplit(lines, "");
    SplitUnsplit(lines, "");
  }

  lemma WriteFrame(text: string, line: string)
    requires Whole(text) && IsFrame(line)
    ensures Whole(text + (line + "\n")) && LinesIn(text + (line + "\n")) == LinesIn(text) + [line]
  {
    hide SplitLines, Fits;
    assert [line][1..] == [];
    assert Unsplit([], "") == "";
    assert line + "\n" + "" == line + "\n";
    assert Unsplit([line], "") == line + "\n";
    WriteLines(text, [line]);
  }

  lemma OnlyPartLeft(buffer: string)
    requires Whole(buffer) && '\n' !in buffer
    ensures buffer == ""
  {
    SplitUnbroken(buffer);
  }

  // ---- Messages among lines ---------------------------------------------------------------------

  lemma NextObject(parse: Server.Parser, line: string, rest: seq<string>)
    ensures ObjectsIn(parse, [line] + rest) == ObjectOn(parse, line) + ObjectsIn(parse, rest)
  {
    assert ([line] + rest)[1..] == rest;
  }

  lemma {:induction false} ObjectsConcat(parse: Server.Parser, xs: seq<string>, ys: seq<string>)
    ensures ObjectsIn(parse, xs + ys) == ObjectsIn(parse, xs) + ObjectsIn(parse, ys)
  {
    if xs == [] {
      assert xs + ys == ys;
    } else {
      hide ObjectsIn, ObjectOn;
      assert xs + ys == [xs[0]] + (xs[1..] + ys) && xs == [xs[0]] + xs[1..];
      ObjectsConcat(parse, xs[1..], ys);
      NextObject(parse, xs[0], xs[1..] + ys);
      NextObject(parse, xs[0], xs[1..]);
    }
  }

  lemma OneObject(parse: Server.Parser, line: string, o: Object)
    requires parse(line) == Some(Obj(o))
    ensures ObjectsIn(parse, [line]) == [o]
  {
    assert [line][1..] == [];
    assert ObjectsIn(parse, []) == [];
  }

  lemma {:induction false} ItemsConcat(xs: seq<Object>, ys: seq<Object>)
    ensures ItemsIn(xs + ys) == ItemsIn(xs) + ItemsIn(ys)
  {
    hide ItemsOf;
    if xs == [] {
      assert xs + ys == ys;
    } else {
      assert (xs + ys)[1..] == xs[1..] + ys && (xs + ys)[0] == xs[0];
      ItemsConcat(xs[1..], ys);
    }
  }

  lemma OneItem(o: Object)
    ensures ItemsIn([o]) == ItemsOf(o)
  {
    hide ItemsOf;
    assert [o][1..] == [];
    assert ItemsOf(o) + [] == ItemsOf(o);
  }

  lemma {:induction false} MessagesConcat(xs: seq<Object>, ys: seq<Object>)
    ensures MessagesIn(xs + ys) == MessagesIn(xs) + MessagesIn(ys)
  {
    hide MessagesOf;
    if xs == [] {
      assert xs + ys == ys;
    } else {
      assert (xs + ys)[1..] == xs[1..] + ys && (xs + ys)[0] == xs[0];
      MessagesConcat(xs[1..], ys);
    }
  }

  lemma OneMessage(o: Object)
    ensures MessagesIn([o]) == MessagesOf(o)
  {
    hide MessagesOf;
    assert [o][1..] == [];
    assert MessagesOf(o) + [] == MessagesOf(o);
  }

  // ---- Lines a client writes --------------------------------------------------------------------

  // A handshake message the server takes from this slot.
  ghost predicate HandshakeLine(env: Env, role: Role, line: string, m: Msg) {
    Net.RelayAccepts(env, role, m) && line == Stringify(Transport.MembersOf(m))
  }

  predicate ChatLine(role: Role, line: string, text: string) {
    !IsBlank(text) && line == Stringify(Server.ChatEntries(Name(role), text))
  }

  ghost predicate UpLine(env: Env, role: Role, line: string) {
    && IsFrame(line) && !IsBlank(line)
    && ((exists m :: HandshakeLine(env, role, line, m)) || (exists text :: ChatLine(role, line, text)))
  }

  lemma AcceptedIsWellFormed(env: Env, role: Role, m: Msg)
    requires Net.RelayAccepts(env, role, m)
    ensures WellFormed(env, m)
  {
    hide WellFormed, Name;
  }

  lemma HandshakeText(env: Env, site: Site, role: Role, m: Msg)
    requires GoodSite(site) && Net.RelayAccepts(env, role, m)
    ensures UpLine(env, role, Stringify(Transport.MembersOf(m)))
    ensures site.parse(Stringify(Transport.MembersOf(m))) == Some(Obj(ToObject(m)))
  {
    hide WellFormed, Stringify, Transport.MembersOf, Net.RelayAccepts, Parse, ObjectOf, Utf8, Announces, IsBlank;
    AcceptedIsWellFormed(env, role, m);
    var line := Stringify(Transport.MembersOf(m));
    Transport.MessageTravels(env, m);
    StringifyHasNoNewline(Transport.MembersOf(m));
    assert site.parse(line) == Some(Obj(ObjectOf(Transport.MembersOf(m))));
    assert HandshakeLine(env, role, line, m);
  }

  // What handshake messages become: their own objects.
  lemma MessageOfObject(m: Msg)
    ensures MessagesOf(ToObject(m)) == [m]
  {
    FromToObject(m);
    Server.MessageParties(m);
    hide ToObject, FromObject;
  }

  function ChatObject(role: Role, text: string): Object {
    map["type" := Str("CHAT"), "version" := Num(PROTOCOL_VERSION), "sender" := Str(Name(role)), "text" := Str(text)]
  }

  lemma ChatText(site: Site, role: Role, text: string)
    requires GoodSite(site)
    ensures site.parse(Stringify(Server.ChatEntries(Name(role), text))) == Some(Obj(ChatObject(role, text)))
    ensures '\n' !in Stringify(Server.ChatEntries(Name(role), text))
    ensures !IsBlank(Stringify(Server.ChatEntries(Name(role), text)))
  {
    hide Stringify, Server.ChatEntries, Parse, Name, Announces, ObjectOf, IsBlank;
    RelayRuns.ChatObject(role, text);
    StringifyHasNoNewline(Server.ChatEntries(Name(role), text));
    assert site.parse(Stringify(Server.ChatEntries(Name(role), text)))
           == Some(Obj(ObjectOf(Server.ChatEntries(Name(role), text))));
  }

  lemma ChatIsNoMessage(role: Role, text: string)
    ensures MessagesOf(ChatObject(role, text)) == [] && ItemsOf(ChatObject(role, text)) == []
  {
  }

  // ---- Lines the server writes ------------------------------------------------------------------

  // A message the client takes without harm and that assigns no identity.
  predicate Harmless(env: Env, o: Object) {
    ValidateMessage(env, Obj(o)).Valid? && !Queue.Unshowable(o) && !Queue.Assigns(o)
  }

  predicate Carried(env: Env, site: Site, line: string) {
    && IsFrame(line) && !IsBlank(line)
    && site.parse(line).Some? && site.parse(line).value.Obj?
    && ValidateMessage(env, site.parse(line).value).Valid?
  }

  // Any line but the greeting.
  predicate DownLine(env: Env, site: Site, line: string) {
    Carried(env, site, line) && Harmless(env, site.parse(line).value.fields)
  }

  predicate GreetingLine(env: Env, site: Site, role: Role, line: string) {
    && Carried(env, site, line)
    && var o := site.parse(line).value.fields;
       Queue.ActionFor(o, false) == Queue.AssignIdentity(Name(role)) && ItemsOf(o) == []
  }

  lemma UpLineIsDownLine(env: Env, site: Site, role: Role, line: string)
    requires GoodSite(site) && UpLine(env, role, line)
    ensures DownLine(env, site, line)
  {
    hide WellFormed, Stringify, Transport.MembersOf, Net.RelayAccepts, ValidateMessage, IsBlank, GoodSite, ToObject,
         Server.ChatEntries, Name, Fits, ChatObject;
    if m :| HandshakeLine(env, role, line, m) {
      HandshakeText(env, site, role, m);
      AcceptedIsWellFormed(env, role, m);
      MessageIsHarmless(env, m);
    } else {
      var text :| ChatLine(role, line, text);
      ChatText(site, role, text);
      ChatIsHarmless(env, role, text);
    }
  }

  lemma MessageIsHarmless(env: Env, m: Msg)
    requires WellFormed(env, m)
    ensures Harmless(env, ToObject(m)) && ItemsOf(ToObject(m)) == [Net.Relayed(m)]
  {
    hide WellFormed, ToObject, FromObject, HandshakeVerdict;
    WellFormedIsValid(env, m);
    Server.MessageParties(m);
    FromToObject(m);
  }

  lemma ChatIsHarmless(env: Env, role: Role, text: string)
    requires !IsBlank(text)
    ensures Harmless(env, ChatObject(role, text))
  {
    hide Name, ValidateMessage;
    RelayRuns.ChatAccepted(env, role, text);
  }

  // ---- The server's notices ---------------------------------------------------------------------

  lemma {:induction false} ParsedNotice(site: Site, entries: seq<Entry>)
    requires GoodSite(site) && AllSafe(entries)
    ensures site.parse(Stringify(entries)) == Some(Obj(ObjectOf(entries)))
  {
    hide Stringify, ObjectOf, Announces;
  }

  function NoticeObject(kind: string, text: string): Object {
    map["type" := Str(kind), "version" := Num(PROTOCOL_VERSION), "text" := Str(text)]
  }

  lemma NoticeIs(kind: string, text: string)
    ensures ObjectOf(NoticeEntries(kind, text)) == NoticeObject(kind, text) && AllSafe(NoticeEntries(kind, text))
  {
    var es := NoticeEntries(kind, text);
    Transport.PutTwo(map[], es[0], es[1], [es[2]]);
    Transport.PutFirst(map[es[0].name := es[0].value][es[1].name := es[1].value], es[2], []);
    assert es == [es[0], es[1]] + [es[2]] && [es[2]] == [es[2]] + [];
    Transport.PutNone(NoticeObject(kind, text));
  }

  function EventObject(event: string, peer: Role, text: string): Object {
    NoticeObject("SYSTEM", text)["event" := Str(event)]["peer" := Str(Name(peer))]
  }

  lemma EventIs(event: string, peer: Role, text: string)
    ensures ObjectOf(EventEntries(event, peer, text)) == EventObject(event, peer, text)
    ensures AllSafe(EventEntries(event, peer, text))
  {
    hide Name;
    var es := EventEntries(event, peer, text);
    Transport.PutFive(es[0], es[1], es[2], es[3], es[4], []);
    assert es == [es[0], es[1], es[2], es[3], es[4]] + [];
    Transport.PutNone(EventObject(event, peer, text));
  }

  // A short notice fits a frame however it is escaped.
  lemma NoticeFits(entries: seq<Entry>)
    requires Transport.TotalWeight(entries) <= 51000
    ensures IsFrame(Stringify(entries)) && !IsBlank(Stringify(entries))
  {
    hide Transport.TotalWeight, Utf8, Members;
    Transport.EscapeCharSize();
    Transport.MembersSize(EscapeChar, entries);
    AsciiByteLength("{");
    Transport.Sizes("{", Members(EscapeChar, entries));
    StringifyHasNoNewline(entries);
  }

  lemma WeightOf(e: Entry, rest: seq<Entry>)
    ensures Transport.TotalWeight([e] + rest) == Transport.MemberWeight(e) + Transport.TotalWeight(rest)
    ensures Transport.TotalWeight([]) == 0
  {
    hide Transport.MemberWeight;
    assert ([e] + rest)[1..] == rest;
  }

  lemma {:induction false} Utf16LengthBound(s: string)
    ensures Utf16Length(s) <= 2 * |s|
  {
    if s != "" {
      Utf16LengthBound(s[1..]);
    }
  }

  predicate Ascii(s: string) {
    |s| <= 20 && forall i :: 0 <= i < |s| ==> s[i] as int < 0x80
  }

  lemma ShortString(name: string, s: string, units: nat)
    requires Ascii(name) && Utf16Length(s) <= units
    ensures Transport.MemberWeight(Entry(name, Str(s))) <= 126 + 6 * units
  {
    hide Utf16Length, Utf8;
    Utf16LengthBmp(name);
    Transport.StringWeight(name, s);
  }

  lemma NoticeWeight(kind: string, text: string)
    requires Ascii(kind) && Utf16Length(text) <= 1000
    ensures Transport.TotalWeight(NoticeEntries(kind, text)) <= 7000
  {
    hide Utf16Length, Transport.MemberWeight, Transport.TotalWeight;
    var es := NoticeEntries(kind, text);
    Utf16LengthBmp(kind);
    ShortString("type", kind, 20);
    ShortString("text", text, 1000);
    Transport.VersionWeight();
    WeightOf(es[2], []);
    WeightOf(es[1], [es[2]] + []);
    WeightOf(es[0], [es[1]] + ([es[2]] + []));
    assert es == [es[0]] + ([es[1]] + ([es[2]] + []));
  }

  lemma {:induction false} WeightConcat(xs: seq<Entry>, ys: seq<Entry>)
    ensures Transport.TotalWeight(xs + ys) == Transport.TotalWeight(xs) + Transport.TotalWeight(ys)
  {
    hide Transport.MemberWeight;
    if xs == [] {
      assert xs + ys == ys;
    } else {
      assert (xs + ys)[1..] == xs[1..] + ys && (xs + ys)[0] == xs[0];
      WeightConcat(xs[1..], ys);
    }
  }

  lemma EventWeight(event: string, peer: Role, text: string)
    requires Ascii(event) && Utf16Length(text) <= 1000
    ensures Transport.TotalWeight(EventEntries(event, peer, text)) <= 8000
  {
    hide Utf16Length, Transport.MemberWeight, Transport.TotalWeight, NoticeEntries;
    NoticeWeight("SYSTEM", text);
    Utf16LengthBmp(event);
    Utf16LengthBmp(Name(peer));
    ShortString("event", event, 20);
    ShortString("peer", Name(peer), 20);
    var e, p := Entry("event", Str(event)), Entry("peer", Str(Name(peer)));
    WeightOf(p, []);
    WeightOf(e, [p] + []);
    assert [e, p] == [e] + ([p] + []);
    WeightConcat(NoticeEntries("SYSTEM", text), [e, p]);
  }

  // A notice that carries an event, in its line.
  lemma EventLine(env: Env, site: Site, event: string, peer: Role, text: string)
    requires GoodSite(site) && event in {"PEER_JOINED", "PEER_LEFT"} && StartsWith(text, peer)
    ensures var line := Stringify(EventEntries(event, peer, text));
            && DownLine(env, site, line)
            && ItemsOf(site.parse(line).value.fields) ==
                 [if event == "PEER_JOINED" then Net.PeerJoined else Net.PeerLeft]
  {
    hide Stringify, EventEntries, Transport.TotalWeight, Name, ObjectOf, GoodSite, Utf16Length, IsBlank, Fits,
         ValidateMessage;
    EventIs(event, peer, text);
    ParsedNotice(site, EventEntries(event, peer, text));
    Utf16LengthBound(text);
    EventWeight(event, peer, text);
    NoticeFits(EventEntries(event, peer, text));
    Startup.NamesAreNoGreetings(peer, text);
    EventIsValid(env, event, peer, text);
    assert TextOf(EventObject(event, peer, text), "event") == event;
  }

  lemma EventIsValid(env: Env, event: string, peer: Role, text: string)
    requires event in {"PEER_JOINED", "PEER_LEFT"} && Name(peer) <= text
    ensures ValidateMessage(env, Obj(EventObject(event, peer, text))).Valid?
  {
    NotBlank(text);
    NotBlank(Name(peer));
    Utf16LengthBound(Name(peer));
    assert IsIdentity(Name(peer)) by { hide IsBlank, Utf16Length; }
    hide ValidateMessage, IsBlank, Utf16Length, IsIdentity, Name;
    EventAccepted(env, EventObject(event, peer, text));
  }

  lemma EventAccepted(env: Env, o: Object)
    requires "type" in o && o["type"] == Str("SYSTEM") && "version" in o && o["version"] == Num(PROTOCOL_VERSION)
    requires "text" in o && o["text"].Str? && !IsBlank(o["text"].s)
    requires "event" in o && (o["event"] == Str("PEER_JOINED") || o["event"] == Str("PEER_LEFT"))
    requires "peer" in o && o["peer"].Str? && IsIdentity(o["peer"].s)
    ensures ValidateMessage(env, Obj(o)).Valid?
  {
    NotBlank("SYSTEM");
    hide HandshakeVerdict, IsBlank, IsIdentity;
  }

  lemma NotBlank(s: string)
    requires s != "" && (s[0] == 'S' || s[0] == 'C')
    ensures !IsBlank(s)
  {
  }

  // A plain system notice about a slot.
  lemma UndeliveredLine(env: Env, site: Site, role: Role, text: string)
    requires GoodSite(site) && StartsWith(text, role)
    ensures var line := Stringify(NoticeEntries("SYSTEM", text));
            DownLine(env, site, line) && ItemsOf(site.parse(line).value.fields) == []
  {
    hide Stringify, NoticeEntries, Transport.TotalWeight, Name, ObjectOf, GoodSite, Utf16Length, IsBlank, Fits,
         ValidateMessage;
    NoticeIs("SYSTEM", text);
    ParsedNotice(site, NoticeEntries("SYSTEM", text));
    Utf16LengthBound(text);
    NoticeWeight("SYSTEM", text);
    NoticeFits(NoticeEntries("SYSTEM", text));
    Startup.NamesAreNoGreetings(role, text);
    NoticeIsValid(env, text, role);
    assert TextOf(NoticeObject("SYSTEM", text), "text") == text;
  }

  lemma NoticeIsValid(env: Env, text: string, role: Role)
    requires Name(role) <= text || Queue.GREETING <= text
    ensures ValidateMessage(env, Obj(NoticeObject("SYSTEM", text))).Valid?
  {
    assert !IsJsSpace("SYSTEM"[0]) && !IsJsSpace(text[0]);
  }

  lemma TheGreeting(env: Env, site: Site, role: Role)
    requires GoodSite(site)
    ensures GreetingLine(env, site, role, Stringify(NoticeEntries("SYSTEM", Queue.GREETING + Name(role))))
  {
    hide Stringify, NoticeEntries, Transport.TotalWeight, ObjectOf, GoodSite, Utf16Length, IsBlank, Fits,
         ValidateMessage;
    var text := Queue.GREETING + Name(role);
    Utf16LengthBound(text);
    NoticeIs("SYSTEM", text);
    ParsedNotice(site, NoticeEntries("SYSTEM", text));
    NoticeWeight("SYSTEM", text);
    NoticeFits(NoticeEntries("SYSTEM", text));
    NoticeIsValid(env, text, role);
    assert text[|Queue.GREETING|..] == Name(role);
    assert TextOf(NoticeObject("SYSTEM", text), "text") == text;
  }

  // ---- The text of the server's lines ------------------------------------------------------------

  // The two identities as they are written.
  function Written(role: Role): string {
    match role
    case ClientA => "Client A"
    case ClientB => "Client B"
  }

  // The properties of a packet the server makes itself, in the order of its factory.
  function PacketParts(site: Site, w: Server.Write): seq<string>
    requires !w.packet.Original?
  {
    var version := Property("version", "1");
    var text := Property("text", Transport.Literal(site.words(w)));
    var system := Property("type", Transport.Literal("SYSTEM"));
    match w.packet
    case ConnectedAs(role) =>
      [system, version, Property("text", Transport.Literal("Connected as " + Written(role)))]
    case PeerJoined(role) =>
      [system, version, text, Property("event", Transport.Literal("PEER_JOINED")),
       Property("peer", Transport.Literal(Written(role)))]
    case PeerLeft(role) =>
      [system, version, text, Property("event", Transport.Literal("PEER_LEFT")),
       Property("peer", Transport.Literal(Written(role)))]
    case Undelivered(_) => [system, version, text]
    case ErrorNotice(_) => [Property("type", Transport.Literal("ERROR")), version, text]
    case Chat(sender, said) =>
      [Property("type", Transport.Literal("CHAT")), version, Property("sender", Transport.Literal(Written(sender))),
       Property("text", Transport.Literal(said))]
  }

  // Every line the server writes: the line it got, or an object of these properties without any space.
  lemma LinesExactly(site: Site, w: Server.Write)
    requires GoodSite(site)
    ensures w.packet.Original? ==> LineOf(site, w) == w.packet.line
    ensures !w.packet.Original? ==> LineOf(site, w) == "{" + Listed(PacketParts(site, w)) + "}"
  {
    hide NeedsNoEscape, Quoted, Property, Listed, Stringify, GoodSite, PacketEntries, PacketParts;
    if !w.packet.Original? {
      PacketNames(site, w);
      StringifyExactly(PacketEntries(site, w));
      if w.packet.PeerJoined? || w.packet.PeerLeft? {
        EventParts(site, w);
      } else {
        NoticeParts(site, w);
      }
    }
  }

  lemma PacketNames(site: Site, w: Server.Write)
    requires !w.packet.Original?
    ensures forall e :: e in PacketEntries(site, w) ==> NeedsNoEscape(e.name)
  {
    hide NeedsNoEscape;
    RelayRuns.ChatNames();
    EventNames();
  }

  lemma EventParts(site: Site, w: Server.Write)
    requires w.packet.PeerJoined? || w.packet.PeerLeft?
    ensures Properties(PacketEntries(site, w)) == PacketParts(site, w)
  {
    hide Quoted, Property;
    Transport.OneIsDecimal();
    assert Name(w.packet.role) == Written(w.packet.role);
  }

  lemma NoticeParts(site: Site, w: Server.Write)
    requires GoodSite(site) && !(w.packet.Original? || w.packet.PeerJoined? || w.packet.PeerLeft?)
    ensures Properties(PacketEntries(site, w)) == PacketParts(site, w)
  {
    hide Quoted, Property, GoodSite;
    Transport.OneIsDecimal();
    GreetingWords(site, w);
    assert w.packet.Chat? ==> Name(w.packet.sender) == Written(w.packet.sender);
  }

  lemma GreetingWords(site: Site, w: Server.Write)
    requires GoodSite(site)
    ensures w.packet.ConnectedAs? ==> site.words(w) == "Connected as " + Written(w.packet.role)
  {
    hide Decode;
    assert Announces(w, site.words(w));
  }

  lemma EventNames()
    ensures NeedsNoEscape("event") && NeedsNoEscape("peer")
  {
  }
}
