// From messages to a stream and back: encode, concatenation, arbitrary chunks, LineBuffer, decode
// (src/protocol/message.js:149-183), and how large the frames get.
module Transport {
  import opened Wrappers
  import opened Text
  import opened Crypto
  import opened Messages
  import opened Framing
  import opened JsonText
  import Base64

  // The stream a sender writes.
  function Wire(messages: seq<seq<Entry>>): string {
    if messages == [] then "" else Encode(messages[0]) + Wire(messages[1..])
  }

  function Texts(messages: seq<seq<Entry>>): seq<string> {
    seq(|messages|, i requires 0 <= i < |messages| => Stringify(messages[i]))
  }

  lemma {:induction false} WireIsUnsplit(messages: seq<seq<Entry>>)
    ensures Wire(messages) == Unsplit(Texts(messages), "")
  {
    hide Stringify;
    if messages != [] {
      WireIsUnsplit(messages[1..]);
      assert Texts(messages)[1..] == Texts(messages[1..]);
    }
  }

  lemma SplitOfWire(messages: seq<seq<Entry>>)
    ensures SplitLines(Wire(messages)) == Split(Texts(messages), "")
  {
    hide Stringify;
    forall l | l in Texts(messages)
      ensures '\n' !in l
    {
      var i :| 0 <= i < |messages| && l == Stringify(messages[i]);
      StringifyHasNoNewline(messages[i]);
    }
    WireIsUnsplit(messages);
    SplitUnsplit(Texts(messages), "");
  }

  // What a receiver makes of the delivered lines.
  predicate Decodes(lines: seq<string>, messages: seq<seq<Entry>>) {
    |lines| == |messages| && forall i :: 0 <= i < |lines| ==> Parse(lines[i]) == Some(messages[i])
  }

  lemma DecodesTexts(messages: seq<seq<Entry>>, lines: seq<string>)
    requires forall m :: m in messages ==> AllSafe(m)
    requires lines <= Texts(messages)
    ensures Decodes(lines, messages[..|lines|])
  {
    hide Stringify, Parse, AllSafe;
    forall i | 0 <= i < |lines|
      ensures Parse(lines[i]) == Some(messages[i])
    {
      ParseStringify(messages[i]);
    }
  }

  lemma DeliveredTexts(messages: seq<seq<Entry>>, chunks: seq<string>, max: nat)
    requires Concat(chunks) <= Wire(messages)
    ensures FeedAll("", chunks, max).delivered <= Texts(messages)
    ensures Concat(chunks) == Wire(messages) ==>
              var got := FeedAll("", chunks, max);
              (got.failed <==> Oversized(Wire(messages), max))
              && (!got.failed ==> got.delivered == Texts(messages) && got.residue == "")
  {
    hide Texts, SplitLines, Wire, FeedAll, Oversized, AllFit;
    var sent := Concat(chunks);
    assert "" + sent == sent;
    ChunkingInvariance("", chunks, max);
    var rest := Wire(messages)[|sent|..];
    assert sent + rest == Wire(messages);
    SplitResumes(sent, rest);
    SplitOfWire(messages);
  }

  // At any moment, whatever part of the stream has arrived in whatever chunks: the delivered lines
  // decode to a prefix of the messages. Once all of it has arrived: reception failed exactly if some
  // frame was over the limit, and otherwise the messages came through exactly, nothing left over.
  lemma TransportRoundTrip(messages: seq<seq<Entry>>, chunks: seq<string>, max: nat)
    requires forall m :: m in messages ==> AllSafe(m)
    requires Concat(chunks) <= Wire(messages)
    ensures var got := FeedAll("", chunks, max);
            && |got.delivered| <= |messages| && Decodes(got.delivered, messages[..|got.delivered|])
            && (Concat(chunks) == Wire(messages) ==>
                  && (got.failed <==> exists m :: m in messages && ByteLength(Stringify(m)) > max)
                  && (!got.failed ==> Decodes(got.delivered, messages) && got.residue == ""))
  {
    hide Stringify, SplitLines, Parse, AllSafe, Wire, FeedAll, Concat, Decodes, Oversized;
    var got := FeedAll("", chunks, max);
    DeliveredTexts(messages, chunks, max);
    DecodesTexts(messages, got.delivered);
    OversizedTexts(messages, max);
    assert messages[..|messages|] == messages;
  }

  lemma OversizedTexts(messages: seq<seq<Entry>>, max: nat)
    ensures Oversized(Wire(messages), max) <==> exists m :: m in messages && ByteLength(Stringify(m)) > max
  {
    hide Stringify, SplitLines;
    SplitOfWire(messages);
    FramesFit(Wire(messages), max);
    var texts := Texts(messages);
    assert Fits("", max);
    if m :| m in messages && ByteLength(Stringify(m)) > max {
      var i :| 0 <= i < |messages| && messages[i] == m;
      assert texts[i] in texts;
    }
    if l :| l in texts && !Fits(l, max) {
      var i :| 0 <= i < |messages| && l == Stringify(messages[i]);
      assert messages[i] in messages;
    }
  }

  // ---- Handshake messages on the wire -----------------------------------------------------------------

  // The properties of a handshake message in the order of its factory.
  function MembersOf(m: Msg): seq<Entry> {
    match m
    case Hello(v, s, e, g) =>
      [Entry("type", Str("HELLO")), Entry("version", Num(v)), Entry("sender", Str(s)),
       Entry("encryptionPublicKey", Str(e)), Entry("signingPublicKey", Str(g))]
    case KeyExchange(v, s, r, i, k, g) =>
      [Entry("type", Str("KEY_EXCHANGE")), Entry("version", Num(v)), Entry("sender", Str(s)),
       Entry("recipient", Str(r)),
       Entry("sessionId", Str(i)), Entry("encryptedSessionKey", Str(k)), Entry("signature", Str(g))]
    case KeyExchangeAck(v, s, r, i, g) =>
      [Entry("type", Str("KEY_EXCHANGE_ACK")), Entry("version", Num(v)), Entry("sender", Str(s)),
       Entry("recipient", Str(r)),
       Entry("sessionId", Str(i)), Entry("signature", Str(g))]
  }

  lemma PutFirst(o: Object, e: Entry, more: seq<Entry>)
    ensures PutAll(o, [e] + more) == PutAll(o[e.name := e.value], more)
  {
    assert ([e] + more)[1..] == more;
  }

  lemma PutTwo(o: Object, e: Entry, f: Entry, more: seq<Entry>)
    ensures PutAll(o, [e, f] + more) == PutAll(o[e.name := e.value][f.name := f.value], more)
  {
    assert [e, f] + more == [e] + ([f] + more);
    PutFirst(o, e, [f] + more);
    PutFirst(o[e.name := e.value], f, more);
  }

  lemma PutFive(e: Entry, f: Entry, g: Entry, h: Entry, i: Entry, more: seq<Entry>)
    ensures PutAll(map[], [e, f, g, h, i] + more)
         == PutAll(map[e.name := e.value][f.name := f.value][g.name := g.value][h.name := h.value][i.name := i.value],
                   more)
  {
    hide PutAll;
    assert [e, f, g, h, i] + more == [e, f] + ([g, h] + ([i] + more));
    PutTwo(map[], e, f, [g, h] + ([i] + more));
    var o := map[e.name := e.value][f.name := f.value];
    PutTwo(o, g, h, [i] + more);
    PutFirst(o[g.name := g.value][h.name := h.value], i, more);
  }

  lemma ObjectOfEntries(m: Msg)
    ensures ObjectOf(MembersOf(m)) == ToObject(m)
  {
    var es := MembersOf(m);
    PutFive(es[0], es[1], es[2], es[3], es[4], es[5..]);
    assert es == [es[0], es[1], es[2], es[3], es[4]] + es[5..];
    hide PutAll;
    var o := map[es[0].name := es[0].value][es[1].name := es[1].value][es[2].name := es[2].value]
                [es[3].name := es[3].value][es[4].name := es[4].value];
    PutNone(o);
    match m
    case Hello(_, _, _, _) =>
    case KeyExchange(_, _, _, _, _, _) =>
      assert es[5..] == [es[5], es[6]] + [];
      PutTwo(o, es[5], es[6], []);
      PutNone(o[es[5].name := es[5].value][es[6].name := es[6].value]);
    case KeyExchangeAck(_, _, _, _, _) =>
      assert es[5..] == [es[5]] + [];
      PutFirst(o, es[5], []);
      PutNone(o[es[5].name := es[5].value]);
  }

  lemma PutNone(o: Object)
    ensures PutAll(o, []) == o
  {
  }

  // ---- The text of a handshake message ---------------------------------------------------------------

  // Every name in the three schemas is a plain word.
  lemma NamesNeedNoEscape()
    ensures NeedsNoEscape("type") && NeedsNoEscape("version") && NeedsNoEscape("sender") && NeedsNoEscape("recipient")
    ensures NeedsNoEscape("sessionId") && NeedsNoEscape("encryptedSessionKey") && NeedsNoEscape("signature")
    ensures NeedsNoEscape("encryptionPublicKey") && NeedsNoEscape("signingPublicKey")
  {
  }

  // A string as a JSON literal.
  function Literal(s: string): string {
    Quoted(EscapeChar, s)
  }

  // The properties the factories give a handshake message, in their order.
  function MessageParts(m: Msg): seq<string> {
    match m
    case Hello(_, s, e, g) =>
      [Property("type", Literal("HELLO")), Property("version", "1"), Property("sender", Literal(s)),
       Property("encryptionPublicKey", Literal(e)), Property("signingPublicKey", Literal(g))]
    case KeyExchange(_, s, r, i, k, g) =>
      [Property("type", Literal("KEY_EXCHANGE")), Property("version", "1"), Property("sender", Literal(s)),
       Property("recipient", Literal(r)), Property("sessionId", Literal(i)),
       Property("encryptedSessionKey", Literal(k)), Property("signature", Literal(g))]
    case KeyExchangeAck(_, s, r, i, g) =>
      [Property("type", Literal("KEY_EXCHANGE_ACK")), Property("version", "1"), Property("sender", Literal(s)),
       Property("recipient", Literal(r)), Property("sessionId", Literal(i)), Property("signature", Literal(g))]
  }

  // The line a handshake message is written as: these properties and no space.
  lemma MessageText(m: Msg)
    requires m.version == 1
    ensures Stringify(MembersOf(m)) == "{" + Listed(MessageParts(m)) + "}"
  {
    hide MembersOf, MessageParts, NeedsNoEscape, Listed, Stringify, Properties;
    MembersArePlain(m);
    StringifyExactly(MembersOf(m));
    MembersAreParts(m);
  }

  lemma MembersArePlain(m: Msg)
    ensures forall e :: e in MembersOf(m) ==> NeedsNoEscape(e.name)
  {
    hide NeedsNoEscape;
    NamesNeedNoEscape();
  }

  lemma MembersAreParts(m: Msg)
    requires m.version == 1
    ensures Properties(MembersOf(m)) == MessageParts(m)
  {
    hide Quoted, Property;
    OneIsDecimal();
    match m
    case Hello(_, _, _, _) => assert Properties(MembersOf(m)) == MessageParts(m);
    case KeyExchange(_, _, _, _, _, _) => assert Properties(MembersOf(m)) == MessageParts(m);
    case KeyExchangeAck(_, _, _, _, _) => assert Properties(MembersOf(m)) == MessageParts(m);
  }

  lemma OneIsDecimal()
    ensures Integer(1) == "1"
  {
  }

  // ---- Frame sizes -----------------------------------------------------------------------------------------

  // A way of escaping that spends at most six bytes on each UTF-16 unit, as \uXXXX does.
  ghost predicate SixBytesPerUnit(esc: char -> string) {
    forall c :: ByteLength(esc(c)) <= 6 * Utf16Length([c])
  }

  lemma EscapeCharSize()
    ensures SixBytesPerUnit(EscapeChar)
  {
    forall c: char
      ensures ByteLength(EscapeChar(c)) <= 6 * Utf16Length([c])
    {
      if c < ' ' || c == '"' || c == '\\' {
        AsciiByteLength(EscapeChar(c));
      } else {
        assert EscapeChar(c) == [c] && Utf8([c]) == Utf8Char(c) + Utf8("");
      }
    }
  }

  lemma {:induction false} EscapedSize(esc: char -> string, s: string)
    requires SixBytesPerUnit(esc)
    ensures ByteLength(Escaped(esc, s)) <= 6 * Utf16Length(s)
  {
    if s != "" {
      EscapedSize(esc, s[1..]);
      Utf8Concat(esc(s[0]), Escaped(esc, s[1..]));
      assert Utf16Length(s) == Utf16Length([s[0]]) + Utf16Length(s[1..]);
    }
  }

  lemma Sizes(s: string, t: string)
    ensures ByteLength(s + t) == ByteLength(s) + ByteLength(t)
  {
    Utf8Concat(s, t);
  }

  lemma QuotedSize(esc: char -> string, s: string)
    requires SixBytesPerUnit(esc)
    ensures ByteLength(Quoted(esc, s)) <= 6 * Utf16Length(s) + 2
  {
    EscapedSize(esc, s);
    AsciiByteLength("\"");
    Sizes("\"" + Escaped(esc, s), "\"");
    Sizes("\"", Escaped(esc, s));
  }

  // The most bytes a property takes, with the comma or brace after it.
  function MemberWeight(e: Entry): nat {
    6 * Utf16Length(e.name) + 4 +
      match e.value
      case Str(s) => 6 * Utf16Length(s) + 2
      case Num(n) => |Integer(n)|
      case Bool(_) => 5
      case Null => 4
  }

  function TotalWeight(entries: seq<Entry>): nat {
    if entries == [] then 0 else MemberWeight(entries[0]) + TotalWeight(entries[1..])
  }

  lemma MemberSize(esc: char -> string, e: Entry, closer: string)
    requires SixBytesPerUnit(esc) && (closer == "," || closer == "}")
    ensures ByteLength(Member(esc, e) + closer) <= MemberWeight(e)
  {
    hide SixBytesPerUnit, Utf8, Quoted, Utf16Length, Decimal;
    QuotedSize(esc, e.name);
    AsciiByteLength(":");
    AsciiByteLength(closer);
    if e.value.Str? {
      QuotedSize(esc, e.value.s);
    } else {
      AsciiByteLength(ValueText(esc, e.value));
    }
    Sizes(Quoted(esc, e.name) + ":" + ValueText(esc, e.value), closer);
    Sizes(Quoted(esc, e.name) + ":", ValueText(esc, e.value));
    Sizes(Quoted(esc, e.name), ":");
  }

  lemma {:induction false} MembersSize(esc: char -> string, entries: seq<Entry>)
    requires SixBytesPerUnit(esc)
    ensures ByteLength(Members(esc, entries)) <= TotalWeight(entries) + 1
  {
    hide SixBytesPerUnit, Utf8, Member, MemberWeight;
    if entries == [] {
      AsciiByteLength("}");
    } else if |entries| == 1 {
      MemberSize(esc, entries[0], "}");
    } else {
      MemberSize(esc, entries[0], ",");
      MembersSize(esc, entries[1..]);
      Sizes(Member(esc, entries[0]) + ",", Members(esc, entries[1..]));
    }
  }

  lemma RsaFieldSize(s: string)
    requires IsRsaOutputField(s)
    ensures Utf16Length(s) <= 1368
  {
    hide Base64.Encode, Base64.Decode;
    Base64.EncodeLength(Base64.Decode(s));
    Utf16LengthBmp(s);
  }

  // The text fields of a well-formed message in UTF-16 units.
  lemma FieldSizes(env: Env, m: Msg)
    requires WellFormed(env, m)
    ensures Utf16Length(m.sender) <= 64
    ensures match m
            case Hello(_, _, e, g) => Utf16Length(e) <= MAX_PEM_LENGTH && Utf16Length(g) <= MAX_PEM_LENGTH
            case KeyExchange(_, _, r, i, k, g) =>
              Utf16Length(r) <= 64 && Utf16Length(i) == 32 && Utf16Length(k) <= 1368 && Utf16Length(g) <= 1368
            case KeyExchangeAck(_, _, r, i, g) => Utf16Length(r) <= 64 && Utf16Length(i) == 32 && Utf16Length(g) <= 1368
  {
    hide IsRsaOutputField, ImportPublicKey, NoPrivateMark;
    match m
    case Hello(_, _, _, _) =>
    case KeyExchange(_, _, _, i, k, g) =>
      Utf16LengthBmp(i);
      RsaFieldSize(k);
      RsaFieldSize(g);
    case KeyExchangeAck(_, _, _, i, g) =>
      Utf16LengthBmp(i);
      RsaFieldSize(g);
  }

  function Without(entries: seq<Entry>, i: nat): (rest: seq<Entry>)
    requires i < |entries|
    ensures |rest| == |entries| - 1
  {
    entries[..i] + entries[i + 1..]
  }

  lemma {:induction false} WeightWithout(entries: seq<Entry>, i: nat)
    requires i < |entries|
    ensures TotalWeight(entries) == MemberWeight(entries[i]) + TotalWeight(Without(entries, i))
  {
    if i == 0 {
      assert Without(entries, 0) == entries[1..];
    } else {
      WeightWithout(entries[1..], i - 1);
      assert Without(entries, i)[1..] == Without(entries[1..], i - 1);
    }
  }

  lemma MultisetWithout(entries: seq<Entry>, i: nat)
    requires i < |entries|
    ensures multiset(Without(entries, i)) == multiset(entries) - multiset{entries[i]}
  {
    assert entries == entries[..i] + [entries[i]] + entries[i + 1..];
  }

  // The order of the properties does not matter.
  lemma {:induction false} WeightPermutes(entries: seq<Entry>, others: seq<Entry>)
    requires multiset(entries) == multiset(others)
    ensures TotalWeight(entries) == TotalWeight(others)
    decreases |entries|
  {
    hide MemberWeight, TotalWeight, Without;
    if entries == [] {
      assert |multiset(others)| == 0;
    } else {
      assert entries[0] in multiset(others);
      var i :| 0 <= i < |others| && others[i] == entries[0];
      MultisetWithout(entries, 0);
      MultisetWithout(others, i);
      WeightWithout(entries, 0);
      WeightWithout(others, i);
      WeightPermutes(Without(entries, 0), Without(others, i));
    }
  }

  lemma NameSizes()
    ensures Utf16Length("type") == 4 && Utf16Length("version") == 7 && Utf16Length("sender") == 6
    ensures Utf16Length("encryptionPublicKey") == 19 && Utf16Length("signingPublicKey") == 16
    ensures Utf16Length("recipient") == 9 && Utf16Length("sessionId") == 9
    ensures Utf16Length("encryptedSessionKey") == 19 && Utf16Length("signature") == 9
    ensures Utf16Length("HELLO") == 5 && Utf16Length("KEY_EXCHANGE") == 12 && Utf16Length("KEY_EXCHANGE_ACK") == 16
  {
    hide Utf16Length;
    Utf16LengthBmp("type");
    Utf16LengthBmp("version");
    Utf16LengthBmp("sender");
    Utf16LengthBmp("encryptionPublicKey");
    Utf16LengthBmp("signingPublicKey");
    Utf16LengthBmp("recipient");
    Utf16LengthBmp("sessionId");
    Utf16LengthBmp("encryptedSessionKey");
    Utf16LengthBmp("signature");
    Utf16LengthBmp("HELLO");
    Utf16LengthBmp("KEY_EXCHANGE");
    Utf16LengthBmp("KEY_EXCHANGE_ACK");
  }

  lemma NextWeight(es: seq<Entry>, i: nat)
    requires i < |es|
    ensures TotalWeight(es[i..]) == MemberWeight(es[i]) + TotalWeight(es[i + 1..])
  {
    assert es[i..][1..] == es[i + 1..];
  }

  lemma UnrollWeight(es: seq<Entry>)
    requires 5 <= |es| <= 7
    ensures TotalWeight(es) ==
            MemberWeight(es[0]) + MemberWeight(es[1]) + MemberWeight(es[2]) + MemberWeight(es[3]) + MemberWeight(es[4])
              + (if |es| > 5 then MemberWeight(es[5]) else 0) + (if |es| > 6 then MemberWeight(es[6]) else 0)
  {
    hide MemberWeight, TotalWeight;
    assert es[0..] == es;
    for i := 0 to |es|
      invariant TotalWeight(es) == TotalWeight(es[i..])
        + (if i > 0 then MemberWeight(es[0]) else 0) + (if i > 1 then MemberWeight(es[1]) else 0)
        + (if i > 2 then MemberWeight(es[2]) else 0) + (if i > 3 then MemberWeight(es[3]) else 0)
        + (if i > 4 then MemberWeight(es[4]) else 0) + (if i > 5 then MemberWeight(es[5]) else 0)
        + (if i > 6 then MemberWeight(es[6]) else 0)
    {
      NextWeight(es, i);
    }
    assert es[|es|..] == [];
    NoWeight();
  }

  lemma NoWeight()
    ensures TotalWeight([]) == 0
  {
  }

  lemma VersionWeight()
    ensures MemberWeight(Entry("version", Num(PROTOCOL_VERSION))) == 47
  {
    hide Utf16Length;
    NameSizes();
    assert Integer(1) == Decimal(1) && |Decimal(1)| == 1;
  }

  lemma StringWeight(name: string, s: string)
    ensures MemberWeight(Entry(name, Str(s))) == 6 * Utf16Length(name) + 6 * Utf16Length(s) + 6
  {
  }

  lemma HelloWeight(m: Msg)
    requires m.Hello? && m.version == PROTOCOL_VERSION && Utf16Length(m.sender) <= MAX_IDENTITY_LENGTH
    requires Utf16Length(m.encryptionPublicKey) <= MAX_PEM_LENGTH && Utf16Length(m.signingPublicKey) <= MAX_PEM_LENGTH
    ensures TotalWeight(MembersOf(m)) <= 51000
  {
    hide Utf16Length, TotalWeight, MemberWeight;
    NameSizes();
    VersionWeight();
    UnrollWeight(MembersOf(m));
    StringWeight("type", "HELLO");
    StringWeight("sender", m.sender);
    StringWeight("encryptionPublicKey", m.encryptionPublicKey);
    StringWeight("signingPublicKey", m.signingPublicKey);
  }

  lemma SignedWeight(m: Msg)
    requires !m.Hello? && m.version == PROTOCOL_VERSION && Utf16Length(m.sender) <= MAX_IDENTITY_LENGTH
    requires Utf16Length(m.recipient) <= MAX_IDENTITY_LENGTH && Utf16Length(m.sessionId) == 32
    requires Utf16Length(m.signature) <= 1368
    requires m.KeyExchange? ==> Utf16Length(m.encryptedSessionKey) <= 1368
    ensures TotalWeight(MembersOf(m)) <= 51000
  {
    hide Utf16Length, TotalWeight, MemberWeight;
    NameSizes();
    VersionWeight();
    UnrollWeight(MembersOf(m));
    StringWeight("type", if m.KeyExchange? then "KEY_EXCHANGE" else "KEY_EXCHANGE_ACK");
    StringWeight("sender", m.sender);
    StringWeight("recipient", m.recipient);
    StringWeight("sessionId", m.sessionId);
    if m.KeyExchange? {
      StringWeight("encryptedSessionKey", m.encryptedSessionKey);
    }
    StringWeight("signature", m.signature);
  }

  lemma WeightOfMessage(env: Env, m: Msg)
    requires WellFormed(env, m)
    ensures TotalWeight(MembersOf(m)) <= 51000
  {
    hide WellFormed, Utf16Length, TotalWeight, MembersOf;
    FieldSizes(env, m);
    MessageVersion(env, m);
    if m.Hello? {
      HelloWeight(m);
    } else {
      SignedWeight(m);
    }
  }

  // Every message that passes handshake validation fits a frame, however its strings are escaped
  // (six bytes per UTF-16 unit at most) and in whatever order its properties are written.
  lemma HandshakeFits(env: Env, m: Msg, esc: char -> string, entries: seq<Entry>)
    requires WellFormed(env, m) && SixBytesPerUnit(esc)
    requires multiset(entries) == multiset(MembersOf(m))
    ensures Fits(TextWith(esc, entries) + "\n", MAX_FRAME_SIZE)
  {
    hide SixBytesPerUnit, WellFormed, Utf8, TotalWeight, Members, MembersOf;
    WeightOfMessage(env, m);
    WeightPermutes(entries, MembersOf(m));
    MembersSize(esc, entries);
    AsciiByteLength("{");
    AsciiByteLength("\n");
    Sizes("{", Members(esc, entries));
    Sizes(TextWith(esc, entries), "\n");
  }

  function AllEntries(ms: seq<Msg>): seq<seq<Entry>> {
    seq(|ms|, i requires 0 <= i < |ms| => MembersOf(ms[i]))
  }

  // A stream of handshake messages, cut in any way, never trips the frame limit, and every line
  // decodes to the object its sender encoded.
  lemma HandshakesArrive(env: Env, ms: seq<Msg>, chunks: seq<string>)
    requires forall m :: m in ms ==> WellFormed(env, m)
    requires Concat(chunks) == Wire(AllEntries(ms))
    ensures var got := FeedAll("", chunks, MAX_FRAME_SIZE);
            && !got.failed && got.residue == "" && |got.delivered| == |ms|
            && forall i :: 0 <= i < |ms| ==> Decode(got.delivered[i]) == Some(ToObject(ms[i]))
  {
    hide WellFormed, Stringify, Parse, FeedAll, Wire, Concat, Utf8, ObjectOf, MembersOf;
    var all := AllEntries(ms);
    forall i | 0 <= i < |ms|
      ensures AllSafe(all[i]) && ByteLength(Stringify(all[i])) <= MAX_FRAME_SIZE && ObjectOf(all[i]) == ToObject(ms[i])
    {
      MessageTravels(env, ms[i]);
    }
    TransportRoundTrip(all, chunks, MAX_FRAME_SIZE);
  }

  lemma MessageTravels(env: Env, m: Msg)
    requires WellFormed(env, m)
    ensures AllSafe(MembersOf(m)) && ByteLength(Stringify(MembersOf(m))) <= MAX_FRAME_SIZE
    ensures ObjectOf(MembersOf(m)) == ToObject(m)
  {
    hide TextWith, SixBytesPerUnit, WellFormed, Utf8, ToObject, ObjectOf, MembersOf, AllSafe;
    MessageVersion(env, m);
    EntriesSafe(m);
    ObjectOfEntries(m);
    EscapeCharSize();
    HandshakeFits(env, m, EscapeChar, MembersOf(m));
    Sizes(Stringify(MembersOf(m)), "\n");
  }

  lemma EntriesSafe(m: Msg)
    requires m.version == PROTOCOL_VERSION
    ensures AllSafe(MembersOf(m))
  {
  }

  lemma MessageVersion(env: Env, m: Msg)
    requires WellFormed(env, m)
    ensures m.version == PROTOCOL_VERSION
  {
  }
}
