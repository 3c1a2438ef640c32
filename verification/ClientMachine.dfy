// The client as it runs: a queue that waits while keys are generated, and the check on what the
// user types (src/client.js:40-49, 137-257).
module ClientMachines {
  import opened Wrappers
  import opened Text
  import opened Crypto
  import opened Messages
  import opened Framing
  import opened JsonText
  import Sessions
  import Transport
  import Relaying
  import RelayRuns
  import ClientQueue

  // ---- String.prototype.trim ---------------------------------------------------------------------

  function TrimStart(s: string): string {
    if s != "" && IsJsSpace(s[0]) then TrimStart(s[1..]) else s
  }

  function TrimEnd(s: string): string {
    if s != "" && IsJsSpace(s[|s| - 1]) then TrimEnd(s[..|s| - 1]) else s
  }

  function Trim(s: string): string {
    TrimEnd(TrimStart(s))
  }

  lemma {:induction false} TrimEndNotBlank(s: string)
    ensures TrimEnd(s) != "" ==> !IsBlank(TrimEnd(s))
  {
    if s != "" && IsJsSpace(s[|s| - 1]) {
      TrimEndNotBlank(s[..|s| - 1]);
    } else if s != "" {
      assert !IsJsSpace(s[|s| - 1]);
    }
  }

  // t is s without white space around it.
  ghost predicate IsTrimmed(s: string, t: string) {
    && (t != "" ==> !IsJsSpace(t[0]) && !IsJsSpace(t[|t| - 1]))
    && exists a: string, b: string :: IsBlank(a) && IsBlank(b) && s == a + t + b
  }

  // trim: the one such text.
  lemma TrimExactly(s: string, t: string)
    ensures t == Trim(s) <==> IsTrimmed(s, t)
  {
    TrimIsTrimmed(s);
    if IsTrimmed(s, t) {
      var a, b :| IsBlank(a) && IsBlank(b) && s == a + t + b;
      StartTrimmed(a, t + b);
      assert s == a + (t + b);
      if t == "" {
        assert t + b == b;
        AllTrimmed(b);
      } else {
        assert !IsJsSpace((t + b)[0]);
        assert TrimStart(t + b) == t + b;
        EndTrimmed(t, b);
      }
    }
  }

  lemma TrimIsTrimmed(s: string)
    ensures IsTrimmed(s, Trim(s))
  {
    var a := StartCut(s);
    var b := EndCut(TrimStart(s));
    assert s == a + Trim(s) + b;
  }

  lemma {:induction false} StartCut(s: string) returns (a: string)
    ensures IsBlank(a) && s == a + TrimStart(s)
    ensures TrimStart(s) != "" ==> !IsJsSpace(TrimStart(s)[0])
  {
    a := "";
    if s != "" && IsJsSpace(s[0]) {
      var rest := StartCut(s[1..]);
      a := [s[0]] + rest;
      assert s == [s[0]] + s[1..];
    }
  }

  lemma {:induction false} EndCut(s: string) returns (b: string)
    ensures IsBlank(b) && s == TrimEnd(s) + b
    ensures TrimEnd(s) != "" ==> !IsJsSpace(TrimEnd(s)[|TrimEnd(s)| - 1]) && TrimEnd(s)[0] == s[0]
  {
    b := "";
    if s != "" && IsJsSpace(s[|s| - 1]) {
      var rest := EndCut(s[..|s| - 1]);
      b := rest + [s[|s| - 1]];
      assert s == s[..|s| - 1] + [s[|s| - 1]];
    }
  }

  lemma {:induction false} StartTrimmed(a: string, s: string)
    requires IsBlank(a)
    ensures TrimStart(a + s) == TrimStart(s)
  {
    if a == "" {
      assert a + s == s;
    } else {
      assert (a + s)[1..] == a[1..] + s;
      StartTrimmed(a[1..], s);
    }
  }

  lemma {:induction false} EndTrimmed(t: string, b: string)
    requires IsBlank(b) && t != "" && !IsJsSpace(t[|t| - 1])
    ensures TrimEnd(t + b) == t
  {
    if b == "" {
      assert t + b == t;
    } else {
      var s := t + b;
      assert s[|s| - 1] == b[|b| - 1] && s[..|s| - 1] == t + b[..|b| - 1];
      EndTrimmed(t, b[..|b| - 1]);
    }
  }

  lemma {:induction false} AllTrimmed(b: string)
    requires IsBlank(b)
    ensures TrimStart(b) == ""
  {
    if b != "" {
      AllTrimmed(b[1..]);
    }
  }

  lemma TrimmedIsBlank(s: string)
    ensures Trim(s) == "" <==> IsBlank(s)
  {
    TrimExactly(s, "");
    if IsBlank(s) {
      assert IsBlank("") && s == s + "" + "";
      assert IsTrimmed(s, "");
    }
  }

  lemma ValidIsObject(env: Env, j: Json)
    requires ValidateMessage(env, j).Valid?
    ensures j.Obj?
  {
  }

  // ---- The client ---------------------------------------------------------------------------------

  class ClientMachine {
    const lines: LineBuffer
    var queue: seq<Object>
    var generatingKeys: bool
    var myId: Option<string>
    var hasSession: bool
    var closing: bool
    var crashed: bool
    var done: seq<ClientQueue.Action>

    constructor ()
      ensures Valid() && fresh(lines)
      ensures View() == ClientQueue.INITIAL && done == [] && myId == None
    {
      lines := new LineBuffer();
      queue := [];
      generatingKeys, hasSession, closing, crashed := false, false, false, false;
      myId := None;
      done := [];
    }

    // While keys are being generated, myId is the identity they are for.
    ghost predicate Valid()
      reads this`generatingKeys, this`myId
    {
      lines.maxFrameSize == MAX_FRAME_SIZE && (generatingKeys ==> myId.Some?)
    }

    ghost function View(): ClientQueue.Client
      reads this`queue, this`generatingKeys, this`myId, this`hasSession, this`closing, this`crashed, lines
    {
      ClientQueue.Client(lines.buffer, queue, if generatingKeys then myId else None, hasSession, closing, crashed)
    }

    method HandleMessage(msg: Object)
      requires Valid() && !generatingKeys && !crashed
      modifies this`myId, this`generatingKeys, this`crashed, this`done
      ensures Valid()
      ensures View() == ClientQueue.Handle(old(View()), msg)
      ensures done == old(done) + [ClientQueue.ActionFor(msg, old(hasSession))]
    {
      hide ClientQueue.TakesIdentity;
      var kind, text := TextOf(msg, "type"), TextOf(msg, "text");
      if kind == "SYSTEM" {
        if ClientQueue.GREETING <= text {
          var id := text[|ClientQueue.GREETING|..];
          myId := Some(id);
          generatingKeys := true;
          done := done + [ClientQueue.AssignIdentity(id)];
        } else if TextOf(msg, "event") == "PEER_JOINED" {
          done := done + [ClientQueue.PeerIsHere];
          crashed := !hasSession;
        } else if TextOf(msg, "event") == "PEER_LEFT" {
          done := done + [ClientQueue.PeerIsGone];
          crashed := !hasSession;
        } else {
          done := done + [ClientQueue.Show(msg)];
        }
      } else if !IsHandshakeType(kind) {
        done := done + [ClientQueue.Show(msg)];
        crashed := kind == "CHAT" && "sender" in msg && !Printable(msg["sender"]);
      } else if hasSession {
        done := done + [ClientQueue.ToSession(msg)];
      } else {
        done := done + [ClientQueue.Ignore(msg)];
      }
    }

    method Drain()
      requires Valid()
      modifies this`queue, this`myId, this`generatingKeys, this`crashed, this`done
      ensures Valid()
      ensures View() == ClientQueue.Drain(old(View())).0
      ensures done == old(done) + ClientQueue.Drain(old(View())).1
      ensures queue == [] || generatingKeys || crashed
    {
      hide ClientQueue.Handle, ClientQueue.ActionFor;
      ghost var (end, actions) := ClientQueue.Drain(View());
      while queue != [] && !generatingKeys && !crashed
        invariant Valid()
        invariant ClientQueue.Drain(View()).0 == end
        invariant done + ClientQueue.Drain(View()).1 == old(done) + actions
        decreases |queue|
      {
        var msg := queue[0];
        queue := queue[1..];
        HandleMessage(msg);
      }
    }

    // Blank, undecodable and invalid lines are dropped; the rest is queued and worked off. An exception out of
    // the validation of a line ends the process.
    method OnData(env: Env, parse: Relaying.Parser, chunk: string)
      requires Valid() && !crashed
      modifies lines, this`queue, this`myId, this`generatingKeys, this`closing, this`crashed, this`done
      ensures Valid()
      ensures View() == ClientQueue.OnArrive(env, parse, old(View()), chunk).0
      ensures done == old(done) + ClientQueue.OnArrive(env, parse, old(View()), chunk).1
    {
      hide Fed, ValidateMessage, IsBlank, ClientQueue.Drain, Relaying.AnyFatal, Relaying.Calm, ClientQueue.Queued;
      var r := lines.Append(chunk);
      match r
      case Failure(_) =>
        closing := true;
      case Success(received) =>
        crashed := QueueLines(env, parse, received);
        if !crashed {
          Drain();
        }
    }

    method QueueLines(env: Env, parse: Relaying.Parser, received: seq<string>) returns (threw: bool)
      modifies this`queue
      ensures queue == old(queue) + ClientQueue.Queued(env, parse, Relaying.Calm(env, parse, received))
      ensures threw == Relaying.AnyFatal(env, parse, received)
    {
      hide ValidateMessage, IsBlank, Relaying.AnyFatal, ClientQueue.Queued, Relaying.Calm;
      assert received[0..] == received;
      RelayRuns.NothingCalm(env, parse);
      ClientQueue.AcceptedNothing(env, parse);
      for i := 0 to |received|
        invariant queue + ClientQueue.Queued(env, parse, Relaying.Calm(env, parse, received[i..]))
               == old(queue) + ClientQueue.Queued(env, parse, Relaying.Calm(env, parse, received))
        invariant Relaying.AnyFatal(env, parse, received) == Relaying.AnyFatal(env, parse, received[i..])
      {
        assert received[i..][1..] == received[i + 1..];
        Relaying.NextFatal(env, parse, received[i..]);
        ClientQueue.NextAccepted(env, parse, received[i..]);
        var line := received[i];
        ClientQueue.QueuedExactly(env, parse, line);
        if IsBlank(line) {
          continue;
        }
        var msg := parse(line);
        if msg.Some? && ValidateMessage(env, msg.value).Throws? {
          return true;
        }
        if msg.None? || ValidateMessage(env, msg.value).Invalid? {
          continue;
        }
        ValidIsObject(env, msg.value);
        queue := queue + [msg.value.fields];
      }
      return false;
    }

    // The timer set by an identity assignment.
    method OnKeysGenerated()
      requires Valid() && generatingKeys && !crashed
      modifies this`queue, this`myId, this`generatingKeys, this`hasSession, this`crashed, this`done
      ensures Valid()
      ensures View() == ClientQueue.OnKeysReady(old(View())).0
      ensures done == old(done) + ClientQueue.OnKeysReady(old(View())).1
    {
      hide ClientQueue.Drain, ClientQueue.TakesIdentity;
      if !ClientQueue.TakesIdentity(myId.value) {
        crashed := true;
        return;
      }
      hasSession := true;
      generatingKeys := false;
      Drain();
    }

    // A line typed by the user: the frame to write, if the socket is alive, an identity is assigned, and the
    // line, not blank and no command, makes a frame of an acceptable size. The frame carries the trimmed text
    // under the own identity.
    method OnInput(destroyed: bool, line: string) returns (frame: Option<string>)
      ensures frame.Some? <==>
        && !destroyed && myId.Some? && !IsBlank(line) && !("/" <= Trim(line))
        && 50 + ByteLength(myId.value) + EscapeCost(myId.value)
              + ByteLength(Trim(line)) + EscapeCost(Trim(line)) <= 65536
      ensures frame.Some? ==> frame.value == "{" + Listed(RelayRuns.ChatParts(myId.value, Trim(line))) + "}\n"
      ensures frame.Some? <==> Sends(destroyed, myId, line)
      ensures frame.Some? ==> !IsBlank(Trim(line))
    {
      hide IsBlank, Listed, Stringify, EscapeCost, Utf8;
      TrimEndNotBlank(TrimStart(line));
      TrimmedIsBlank(line);
      var text := Trim(line);
      if text == "" || text[0] == '/' || destroyed || myId.None? {
        return None;
      }
      FrameExactly(myId.value, text);
      var encoded := Encode(Relaying.ChatEntries(myId.value, text));
      if ByteLength(encoded) > MAX_FRAME_SIZE {
        return None;
      }
      return Some(encoded);
    }
  }

  lemma FrameExactly(id: string, text: string)
    ensures var frame := Encode(Relaying.ChatEntries(id, text));
            && frame == "{" + Listed(RelayRuns.ChatParts(id, text)) + "}\n"
            && ByteLength(frame) == 50 + ByteLength(id) + EscapeCost(id) + ByteLength(text) + EscapeCost(text)
  {
    hide Listed, Stringify, EscapeCost, Utf8;
    RelayRuns.ChatLineExactly(id, text);
    Transport.Sizes(Stringify(Relaying.ChatEntries(id, text)), "\n");
    AsciiByteLength("\n");
    var body := "{" + Listed(RelayRuns.ChatParts(id, text));
    assert body + "}" + "\n" == body + "}\n";
  }

  // Commands and blank lines are not sent, nor what would be over the frame size; and nothing is on a
  // destroyed socket or before an identity is assigned.
  predicate Sends(destroyed: bool, myId: Option<string>, line: string) {
    && Trim(line) != "" && Trim(line)[0] != '/' && !destroyed && myId.Some?
    && ByteLength(Encode(Relaying.ChatEntries(myId.value, Trim(line)))) <= MAX_FRAME_SIZE
  }

  // Whatever the user types: if the client sends it, the server takes it as one line, accepts it and
  // relays the same frame, which the peer's client takes as one line, however both streams are cut.
  lemma TypedTextArrives(env: Env, parse: Relaying.Parser, role: Sessions.Role, self: nat, peer: nat, line: string,
                         chunks: seq<string>, chunks': seq<string>)
    requires ParsesFlat(parse)
    requires Sends(false, Some(Sessions.Name(role)), line)
    requires Concat(chunks) == Encode(Relaying.ChatEntries(Sessions.Name(role), Trim(line)))
    requires Concat(chunks') == Concat(chunks)
    ensures var atServer, atPeer := FeedAll("", chunks, MAX_FRAME_SIZE), FeedAll("", chunks', MAX_FRAME_SIZE);
            && !atServer.failed && |atServer.delivered| == 1 && !IsBlank(atServer.delivered[0])
            && Relaying.Answer(env, parse, role, self, Some(peer), atServer.delivered[0])
               == Some(Relaying.Write(peer, Relaying.Chat(role, Trim(line))))
            && Relaying.RelayedText(Relaying.Chat(role, Trim(line))) == Concat(chunks)
            && atPeer == atServer
  {
    hide FeedAll, IsBlank, Utf8, Relaying.Answer, Relaying.ChatEntries, Encode, Sessions.Name, ParsesFlat;
    TrimEndNotBlank(TrimStart(line));
    RelayRuns.ChatIsRelayedVerbatim(env, parse, role, self, peer, Trim(line), chunks, chunks');
  }
}
