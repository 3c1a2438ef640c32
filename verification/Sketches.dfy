// Two clients reduced to what decides whether a handshake completes: what they wait for, and which
// lines are on their way. Departed peers leave lines behind that belong to nobody present.
module Sketches {
  import opened Sessions

  // ---- Data ----------------------------------------------------------------------------------------

  // A line seen from its receiver: a HELLO, or a signed message that is or is not its own.
  datatype Token = Greeting | Sealed(own: bool)

  datatype Entry = Leaves | Joins | Line(token: Token)

  // Waiting for a HELLO, for a signed message, for nothing more, or FAILED.
  datatype Phase = Idle | Greeted | Done | Broken

  datatype Sketch = Sketch(role: Role, phase: Phase, sent: bool, inbox: seq<Entry>, outbox: seq<Token>)

  // ---- Handling an entry -----------------------------------------------------------------------------

  datatype Reaction = Reaction(phase: Phase, sent: bool, written: seq<Token>)

  function HelloOnce(sent: bool): seq<Token> {
    if sent then [] else [Greeting]
  }

  // current: no departure is left to handle, so what is written now is meant for the present peer.
  // works: the primitives do not throw.
  function React(role: Role, phase: Phase, sent: bool, e: Entry, current: bool, works: bool): Reaction {
    match e
    case Leaves => Reaction(Idle, false, [])
    case Joins => Reaction(phase, true, HelloOnce(sent))
    case Line(Greeting) =>
      if phase != Idle then Reaction(phase, sent, [])
      else if role == ClientB then Reaction(Greeted, true, HelloOnce(sent))
      else if works then Reaction(Greeted, true, HelloOnce(sent) + [Sealed(current)])
      else Reaction(Broken, true, [])
    case Line(Sealed(own)) =>
      if phase != Greeted then Reaction(phase, sent, [])
      else if !own then Reaction(Broken, sent, [])
      else if role == ClientA then Reaction(Done, sent, [])
      else if works then Reaction(Done, sent, [Sealed(current)])
      else Reaction(Broken, sent, [])
  }

  // With a departure still to handle it no longer matters how the session ended.
  function Settle(phase: Phase, current: bool): Phase {
    if !current && phase == Broken then Done else phase
  }

  function Take(s: Sketch, works: bool): Sketch
    requires s.inbox != []
  {
    var current := Leaves !in s.inbox[1..];
    var r := React(s.role, s.phase, s.sent, s.inbox[0], current, works);
    Sketch(s.role, Settle(r.phase, current), r.sent, s.inbox[1..], s.outbox + r.written)
  }

  // ---- What is on its way ------------------------------------------------------------------------------

  // The part of an inbox that the present peer filled.
  function Present(inbox: seq<Entry>): (r: seq<Entry>)
    ensures Leaves !in r
    ensures Leaves !in inbox ==> r == inbox
  {
    if Leaves in inbox then Present(inbox[1..]) else inbox
  }

  function TokensOf(inbox: seq<Entry>): seq<Token> {
    if inbox == [] then [] else (if inbox[0].Line? then [inbox[0].token] else []) + TokensOf(inbox[1..])
  }

  // What a client will still write before it has handled the departures in its inbox.
  function Prospect(role: Role, phase: Phase, sent: bool, inbox: seq<Entry>): seq<Token>
    decreases |inbox|
  {
    if Leaves !in inbox then []
    else
      var r := React(role, phase, sent, inbox[0], Leaves !in inbox[1..], true);
      r.written + Prospect(role, r.phase, r.sent, inbox[1..])
  }

  // Everything written or certain to be written for a client, once its departures are handled.
  function Coming(from: Sketch, to: Sketch): seq<Token> {
    TokensOf(Present(to.inbox)) + (from.outbox + Prospect(from.role, from.phase, from.sent, from.inbox))
  }

  // A client with its departures handled: its part in the handshake with the present peer.
  datatype Half = Half(role: Role, phase: Phase, sent: bool, told: bool, coming: seq<Token>)

  function HalfOf(own: Sketch, peer: Sketch): Half {
    var departed := Leaves in own.inbox;
    var sent := !departed && own.sent;
    Half(own.role, if departed then Idle else own.phase, sent, sent || Joins in Present(own.inbox), Coming(peer, own))
  }

  // The lines to come hold a HELLO followed by a signed message of an earlier session, or the client
  // waits for a signed message already and one of an earlier session is to come.
  predicate Tangled(x: Half) {
    || x.phase == Broken
    || (x.phase == Greeted && Sealed(false) in x.coming)
    || (x.phase == Idle && exists i,
        j :: 0 <= i < j < |x.coming| && x.coming[i] == Greeting && x.coming[j] == Sealed(false))
  }

  // ---- Invariant -------------------------------------------------------------------------------------------

  // The own signed message is among the tokens, with a HELLO before it if one is still needed.
  predicate OwnOnItsWay(x: Half) {
    exists j :: 0 <= j < |x.coming| && x.coming[j] == Sealed(true) && (x.phase == Greeted || Greeting in x.coming[..j])
  }

  // Nothing follows an own signed message.
  predicate OwnIsLast(coming: seq<Token>) {
    forall j :: 0 <= j < |coming| && coming[j] == Sealed(true) ==> j == |coming| - 1
  }

  // A HELLO that was sent is heard or to come.
  predicate Hears(x: Half, y: Half) {
    && (x.phase != Idle ==> x.sent) && (x.sent ==> x.told) && x.told
    && (x.sent && x.phase != Broken ==> y.phase != Idle || Greeting in y.coming)
    && OwnIsLast(x.coming)
  }

  predicate Paired(a: Half, b: Half) {
    && a.role == ClientA && b.role == ClientB
    && Hears(a, b) && Hears(b, a)
    && (Sealed(true) in b.coming ==> a.phase != Idle)
    && (Sealed(true) in a.coming ==> b.phase == Done)
    && (a.phase in {Greeted, Done} ==> b.phase in {Done, Broken} || OwnOnItsWay(b))
    && (b.phase == Done ==> a.phase in {Done, Broken} || (a.phase == Greeted && Sealed(true) in a.coming))
  }

  // With nothing on its way, a pair is done exactly when neither is tangled.
  lemma QuietPair(a: Half, b: Half)
    requires Paired(a, b) && a.coming == [] && b.coming == [] && a.sent && b.sent
    ensures a.phase == Done && b.phase == Done <==> !Tangled(a) && !Tangled(b)
  {
  }

  // ---- Handling the present peer's entries ----------------------------------------------------------------

  // A client reacts to an entry of its present peer.
  function AfterEntry(x: Half, e: Entry, works: bool): Half {
    var r := React(x.role, x.phase, x.sent, e, true, works);
    x.(phase := r.phase, sent := r.sent, coming := if e.Line? && x.coming != [] then x.coming[1..] else x.coming)
  }

  function Hearing(y: Half, written: seq<Token>): Half {
    y.(coming := y.coming + written)
  }

  lemma SameTail(x: Half, t: Token, rest: seq<Token>)
    requires x.coming == [t] + rest
    ensures OwnIsLast(x.coming) ==> OwnIsLast(rest)
    ensures forall u :: u in rest ==> u in x.coming
    ensures forall u :: u in x.coming ==> u == t || u in rest
  {
    if OwnIsLast(x.coming) {
      forall j | 0 <= j < |rest| && rest[j] == Sealed(true)
        ensures j == |rest| - 1
      {
        assert x.coming[j + 1] == rest[j];
      }
    }
  }

  // Dropping the head keeps the own message on its way, if the head was not it and, for a client
  // that still waits for a HELLO, was not the HELLO.
  lemma OwnStays(x: Half, x': Half, t: Token)
    requires OwnOnItsWay(x) && x.coming == [t] + x'.coming
    requires (x'.phase == Greeted && t == Greeting) || (x'.phase == x.phase == Idle && t != Greeting)
    ensures OwnOnItsWay(x')
  {
    var j :| 0 <= j < |x.coming| && x.coming[j] == Sealed(true) && (x.phase == Greeted || Greeting in x.coming[..j]);
    assert j > 0;
    assert x'.coming[j - 1] == Sealed(true);
    if x.phase == Idle && t != Greeting {
      assert x.coming[..j] == [t] + x'.coming[..j - 1];
    }
  }

  lemma OwnAppended(y: Half, ts: seq<Token>)
    requires ts != [] && ts[|ts| - 1] == Sealed(true) && Sealed(true) !in y.coming && Sealed(true) !in ts[..|ts| - 1]
    ensures OwnIsLast(y.coming + ts)
    ensures y.phase == Greeted || Greeting in y.coming || Greeting in ts ==> OwnOnItsWay(Hearing(y, ts))
  {
    var all := y.coming + ts;
    var j := |all| - 1;
    assert all[j] == Sealed(true);
    assert all[..j] == y.coming + ts[..|ts| - 1];
    assert ts == ts[..|ts| - 1] + [Sealed(true)];
    forall k | 0 <= k < j
      ensures all[k] != Sealed(true)
    {
      assert all[k] == all[..j][k];
    }
  }

  lemma JoinByA(a: Half, b: Half, works: bool)
    requires Paired(a, b)
    ensures Paired(AfterEntry(a, Joins, works), Hearing(b, HelloOnce(a.sent)))
  {
    if a.sent {
      assert AfterEntry(a, Joins, works) == a;
      assert Hearing(b, []) == b;
    }
  }

  lemma JoinByB(a: Half, b: Half, works: bool)
    requires Paired(a, b)
    ensures Paired(Hearing(a, HelloOnce(b.sent)), AfterEntry(b, Joins, works))
  {
    if b.sent {
      assert AfterEntry(b, Joins, works) == b;
      assert Hearing(a, []) == a;
    } else if OwnOnItsWay(b) {
      SameComing(b, AfterEntry(b, Joins, works));
    }
  }

  lemma SameComing(x: Half, x': Half)
    requires OwnOnItsWay(x) && x'.coming == x.coming && x'.phase == x.phase
    ensures OwnOnItsWay(x')
  {
  }

  // The initiator takes the next line.
  lemma LineToA(a: Half, b: Half, t: Token, rest: seq<Token>, works: bool)
    requires Paired(a, b) && a.coming == [t] + rest
    ensures Paired(AfterEntry(a, Line(t), works),
                   Hearing(b, React(a.role, a.phase, a.sent, Line(t), true, works).written))
  {
    SameTail(a, t, rest);
    assert a.coming[1..] == rest;
    var written := React(a.role, a.phase, a.sent, Line(t), true, works).written;
    assert Hearing(b, []) == b;
    if written != [] {
      OwnAppended(b, written);
    }
  }

  // The responder takes the next line.
  lemma LineToB(a: Half, b: Half, t: Token, rest: seq<Token>, works: bool)
    requires Paired(a, b) && b.coming == [t] + rest
    ensures Paired(Hearing(a, React(b.role, b.phase, b.sent, Line(t), true, works).written),
                   AfterEntry(b, Line(t), works))
  {
    SameTail(b, t, rest);
    assert b.coming[1..] == rest;
    var b' := AfterEntry(b, Line(t), works);
    var written := React(b.role, b.phase, b.sent, Line(t), true, works).written;
    assert Hearing(a, []) == a;
    if written == [Sealed(true)] {
      OwnAppended(a, written);
    }
    if OwnOnItsWay(b) && b'.phase in {Idle, Greeted} && (t == Greeting || b.phase == Idle) {
      OwnStays(b, b', t);
    }
  }

  // ---- Tangles stay what they are -----------------------------------------------------------------------

  lemma HearingKeepsTangles(y: Half, written: seq<Token>)
    requires Sealed(false) !in written
    ensures Tangled(Hearing(y, written)) <==> Tangled(y)
  {
    var all := y.coming + written;
    forall k | |y.coming| <= k < |all|
      ensures all[k] != Sealed(false)
    {
      assert all[k] == written[k - |y.coming|];
    }
    if y.phase == Idle && Tangled(y) {
      var i, j :| 0 <= i < j < |y.coming| && y.coming[i] == Greeting && y.coming[j] == Sealed(false);
      assert all[i] == Greeting && all[j] == Sealed(false);
    }
    if y.phase == Idle && Tangled(Hearing(y, written)) {
      var i, j :| 0 <= i < j < |all| && all[i] == Greeting && all[j] == Sealed(false);
      assert y.coming[i] == Greeting && y.coming[j] == Sealed(false);
    }
  }

  // Where the primitives work, taking the next line neither makes nor removes a tangle.
  lemma TakingKeepsTangles(x: Half, t: Token, rest: seq<Token>)
    requires x.coming == [t] + rest && OwnIsLast(x.coming)
    ensures Tangled(AfterEntry(x, Line(t), true)) <==> Tangled(x)
  {
    SameTail(x, t, rest);
    assert x.coming[1..] == rest;
    var x' := AfterEntry(x, Line(t), true);
    if x.phase == Greeted && t == Sealed(true) {
      assert x.coming[0] == Sealed(true);
      assert rest == [];
    }
    if x.phase == Idle && Tangled(x) {
      var i, j :| 0 <= i < j < |x.coming| && x.coming[i] == Greeting && x.coming[j] == Sealed(false);
      assert rest[j - 1] == Sealed(false);
      assert i > 0 ==> rest[i - 1] == Greeting;
    }
    if x.phase == Idle && Tangled(x') {
      TangleFurtherBack(x, x', t);
    }
  }

  lemma TangleFurtherBack(x: Half, x': Half, t: Token)
    requires x.phase == Idle && x.coming == [t] + x'.coming && Tangled(x')
    requires if t == Greeting then x'.phase == Greeted else x'.phase == Idle
    ensures Tangled(x)
  {
    if t == Greeting {
      var j :| 0 <= j < |x'.coming| && x'.coming[j] == Sealed(false);
      assert x.coming[0] == Greeting && x.coming[j + 1] == Sealed(false);
    } else {
      var i, j :| 0 <= i < j < |x'.coming| && x'.coming[i] == Greeting && x'.coming[j] == Sealed(false);
      assert x.coming[i + 1] == Greeting && x.coming[j + 1] == Sealed(false);
    }
  }

  lemma WrittenIsCurrent(x: Half, e: Entry)
    ensures Sealed(false) !in React(x.role, x.phase, x.sent, e, true, true).written
  {
  }

  // ---- Steps of a pair of sketches ------------------------------------------------------------------------

  lemma {:induction false} PresentAppend(inbox: seq<Entry>, e: Entry)
    requires e != Leaves
    ensures Present(inbox + [e]) == Present(inbox) + [e]
    ensures Leaves in inbox + [e] <==> Leaves in inbox
  {
    if Leaves in inbox {
      assert (inbox + [e])[1..] == inbox[1..] + [e];
      PresentAppend(inbox[1..], e);
    }
  }

  lemma NextTokens(inbox: seq<Entry>)
    requires inbox != []
    ensures TokensOf(inbox) == (if inbox[0].Line? then [inbox[0].token] else []) + TokensOf(inbox[1..])
    ensures TokensOf([]) == []
  {
  }

  lemma {:induction false} TokensAppend(inbox: seq<Entry>, e: Entry)
    ensures TokensOf(inbox + [e]) == TokensOf(inbox) + (if e.Line? then [e.token] else [])
  {
    hide TokensOf;
    NextTokens(inbox + [e]);
    if inbox == [] {
      assert [e][1..] == [];
      assert inbox + [e] == [e];
    } else {
      assert (inbox + [e])[1..] == inbox[1..] + [e] && (inbox + [e])[0] == inbox[0];
      NextTokens(inbox);
      TokensAppend(inbox[1..], e);
    }
  }

  // What comes in after the departures does not change what is written before them.
  lemma {:induction false} ProspectAppend(role: Role, phase: Phase, sent: bool, inbox: seq<Entry>, e: Entry)
    requires e != Leaves
    ensures Prospect(role, phase, sent, inbox + [e]) == Prospect(role, phase, sent, inbox)
    decreases |inbox|
  {
    if Leaves in inbox {
      assert (inbox + [e])[1..] == inbox[1..] + [e];
      var r := React(role, phase, sent, inbox[0], Leaves !in inbox[1..], true);
      ProspectAppend(role, r.phase, r.sent, inbox[1..], e);
    }
  }

  lemma PassedOn(before: seq<Token>, t: Token, outbox: seq<Token>, later: seq<Token>)
    requires outbox != [] && outbox[0] == t
    ensures before + (outbox + later) == before + [t] + (outbox[1..] + later)
  {
    assert outbox == [t] + outbox[1..];
  }

  // The server moves a line from one client to the other: nothing changes for either.
  lemma PassingChangesNothing(x: Sketch, y: Sketch)
    requires x.outbox != []
    ensures var x', y' := x.(outbox := x.outbox[1..]), y.(inbox := y.inbox + [Line(x.outbox[0])]);
            HalfOf(x', y') == HalfOf(x, y) && HalfOf(y', x') == HalfOf(y, x)
  {
    hide TokensOf, Present, Prospect;
    var t := x.outbox[0];
    PresentAppend(y.inbox, Line(t));
    TokensAppend(Present(y.inbox), Line(t));
    ProspectAppend(y.role, y.phase, y.sent, y.inbox, Line(t));
    PassedOn(TokensOf(Present(y.inbox)), t, x.outbox, Prospect(x.role, x.phase, x.sent, x.inbox));
  }

  lemma {:induction false} EndedProspect(role: Role, sent: bool, inbox: seq<Entry>)
    ensures Prospect(role, Broken, sent, inbox) == Prospect(role, Done, sent, inbox)
    decreases |inbox|
  {
    if Leaves in inbox {
      var r := React(role, Done, sent, inbox[0], Leaves !in inbox[1..], true);
      EndedProspect(role, r.sent, inbox[1..]);
    }
  }

  // What a client does first before it has handled the departures.
  lemma {:induction false} NextProspect(role: Role, phase: Phase, sent: bool, inbox: seq<Entry>)
    requires Leaves in inbox
    ensures var r := React(role, phase, sent, inbox[0], Leaves !in inbox[1..], true);
            Prospect(role, phase, sent, inbox) == r.written + Prospect(role, r.phase, r.sent, inbox[1..])
  {
  }

  lemma {:induction false} StaleReaction(role: Role, phase: Phase, sent: bool, inbox: seq<Entry>, works: bool)
    requires Leaves in inbox
    ensures Sealed(true) !in React(role, phase, sent, inbox[0], Leaves !in inbox[1..], works).written
  {
    assert inbox == [inbox[0]] + inbox[1..];
  }

  lemma {:induction false} ProspectIsStale(role: Role, phase: Phase, sent: bool, inbox: seq<Entry>)
    ensures Sealed(true) !in Prospect(role, phase, sent, inbox)
    decreases |inbox|
  {
    hide Prospect;
    if Leaves in inbox {
      var r := React(role, phase, sent, inbox[0], Leaves !in inbox[1..], true);
      NextProspect(role, phase, sent, inbox);
      StaleReaction(role, phase, sent, inbox, true);
      ProspectIsStale(role, r.phase, r.sent, inbox[1..]);
    } else {
      NoProspect(role, phase, sent, inbox);
    }
  }

  lemma NoProspect(role: Role, phase: Phase, sent: bool, inbox: seq<Entry>)
    requires Leaves !in inbox
    ensures Prospect(role, phase, sent, inbox) == []
  {
  }

  // Handling what an earlier peer left behind changes neither half, where the primitives work.
  lemma CatchingUp(x: Sketch, y: Sketch)
    requires Leaves in x.inbox
    ensures var x' := Take(x, true);
            HalfOf(x', y) == HalfOf(x, y) && HalfOf(y, x') == HalfOf(y, x)
  {
    hide TokensOf, Prospect;
    var r := React(x.role, x.phase, x.sent, x.inbox[0], Leaves !in x.inbox[1..], true);
    assert x.inbox == [x.inbox[0]] + x.inbox[1..];
    NextProspect(x.role, x.phase, x.sent, x.inbox);
    EndedProspect(x.role, r.sent, x.inbox[1..]);
    WrittenFirst(TokensOf(Present(y.inbox)), x.outbox, r.written, Prospect(x.role, r.phase, r.sent, x.inbox[1..]));
  }

  lemma WrittenFirst(before: seq<Token>, outbox: seq<Token>, written: seq<Token>, later: seq<Token>)
    ensures before + (outbox + written + later) == before + (outbox + (written + later))
  {
    assert outbox + written + later == outbox + (written + later);
  }

  // Where they throw, less is written, but all of it still belongs to an earlier session.
  lemma CatchingUpBroken(x: Sketch, y: Sketch)
    requires Leaves in x.inbox
    ensures var x' := Take(x, false);
            && HalfOf(x', y) == HalfOf(x, y)
            && HalfOf(y, x') == HalfOf(y, x).(coming := Coming(x', y))
            && (Sealed(true) in Coming(x', y) ==> Sealed(true) in Coming(x, y))
  {
    hide TokensOf, Prospect;
    var x' := Take(x, false);
    assert x.inbox == [x.inbox[0]] + x.inbox[1..];
    ProspectIsStale(x'.role, x'.phase, x'.sent, x'.inbox);
    StaleReaction(x.role, x.phase, x.sent, x.inbox, false);
    OnlyStaleAdded(TokensOf(Present(y.inbox)), x.outbox,
                   React(x.role, x.phase, x.sent, x.inbox[0], Leaves !in x.inbox[1..], false).written,
                   Prospect(x'.role, x'.phase, x'.sent, x'.inbox), Prospect(x.role, x.phase, x.sent, x.inbox));
  }

  lemma OnlyStaleAdded(before: seq<Token>, outbox: seq<Token>, written: seq<Token>, later: seq<Token>,
                       instead: seq<Token>)
    requires Sealed(true) !in written && Sealed(true) !in later
    ensures Sealed(true) in before + (outbox + written + later) ==> Sealed(true) in before + (outbox + instead)
  {
  }

  // The next entry of the present peer.
  lemma TakingNext(x: Sketch, y: Sketch, works: bool)
    requires Leaves !in x.inbox && x.inbox != []
    ensures var x', e := Take(x, works), x.inbox[0];
            && e != Leaves
            && (e.Line? ==> HalfOf(x, y).coming == [e.token] + HalfOf(x', y).coming)
            && HalfOf(x', y).phase == AfterEntry(HalfOf(x, y), e, works).phase
            && HalfOf(x', y) == AfterEntry(HalfOf(x, y), e, works).(told := HalfOf(x', y).told)
            && (HalfOf(x', y).told <==> HalfOf(x', y).sent || Joins in x.inbox[1..])
            && HalfOf(y, x') == Hearing(HalfOf(y, x), React(x.role, x.phase, x.sent, e, true, works).written)
  {
    hide TokensOf, Prospect;
    var x', e := Take(x, works), x.inbox[0];
    assert x.inbox == [e] + x.inbox[1..];
    assert e in x.inbox;
    NoProspect(x.role, x.phase, x.sent, x.inbox);
    NoProspect(x'.role, x'.phase, x'.sent, x'.inbox);
    NextTokens(x.inbox);
    HeadOff(e, TokensOf(x'.inbox), y.outbox + Prospect(y.role, y.phase, y.sent, y.inbox));
    Written(TokensOf(Present(y.inbox)), x.outbox, React(x.role, x.phase, x.sent, e, true, works).written);
  }

  lemma HeadOff(e: Entry, tokens: seq<Token>, later: seq<Token>)
    ensures e.Line? ==> [e.token] + tokens + later == [e.token] + (tokens + later)
    ensures e.Line? ==> ([e.token] + tokens + later)[1..] == tokens + later
    ensures !e.Line? ==> [] + tokens + later == tokens + later
  {
  }

  lemma Written(before: seq<Token>, outbox: seq<Token>, written: seq<Token>)
    ensures before + ((outbox + written) + []) == before + (outbox + []) + written
  {
  }

  // ---- The pair --------------------------------------------------------------------------------------------

  predicate Pair(a: Sketch, b: Sketch) {
    Paired(HalfOf(a, b), HalfOf(b, a))
  }

  predicate SameTangles(a: Sketch, b: Sketch, a': Sketch, b': Sketch) {
    && (Tangled(HalfOf(a', b')) <==> Tangled(HalfOf(a, b)))
    && (Tangled(HalfOf(b', a')) <==> Tangled(HalfOf(b, a)))
  }

  lemma ShorterForB(a: Half, b: Half, coming: seq<Token>)
    requires Paired(a, b) && a.phase == Idle && !a.sent && (Sealed(true) in coming ==> Sealed(true) in b.coming)
    ensures Paired(a, b.(coming := coming))
  {
  }

  lemma ShorterForA(a: Half, b: Half, coming: seq<Token>)
    requires Paired(a, b) && b.phase == Idle && !b.sent && (Sealed(true) in coming ==> Sealed(true) in a.coming)
    ensures Paired(a.(coming := coming), b)
  {
  }

  lemma ToldStays(x: Sketch, y: Sketch, works: bool)
    requires Leaves !in x.inbox && x.inbox != [] && HalfOf(x, y).told
    ensures HalfOf(Take(x, works), y) == AfterEntry(HalfOf(x, y), x.inbox[0], works)
    ensures HalfOf(y, Take(x, works)) == Hearing(HalfOf(y, x),
                                                 React(x.role, x.phase, x.sent, x.inbox[0], true, works).written)
  {
    hide HalfOf, AfterEntry, Hearing;
    TakingNext(x, y, works);
    ToldFacts(x, y, works);
    StillTold(x, works);
  }

  lemma ToldFacts(x: Sketch, y: Sketch, works: bool)
    requires Leaves !in x.inbox
    ensures HalfOf(x, y).told <==> x.sent || Joins in x.inbox
    ensures x.inbox != [] ==> (AfterEntry(HalfOf(x, y), x.inbox[0], works).told <==> HalfOf(x, y).told)
    ensures x.inbox != [] ==> HalfOf(Take(x, works), y).sent == Take(x, works).sent
  {
    assert x.inbox != [] ==> x.inbox == [x.inbox[0]] + x.inbox[1..];
  }

  lemma StillTold(x: Sketch, works: bool)
    requires Leaves !in x.inbox && x.inbox != [] && (x.sent || Joins in x.inbox)
    ensures Take(x, works).sent || Joins in x.inbox[1..]
  {
    assert x.inbox == [x.inbox[0]] + x.inbox[1..];
  }

  lemma PartsOf(x: Sketch, y: Sketch)
    ensures HalfOf(x, y).role == x.role
    ensures Leaves !in x.inbox ==> HalfOf(x, y).phase == x.phase && HalfOf(x, y).sent == x.sent
    ensures Leaves in x.inbox ==> HalfOf(x, y).phase == Idle && !HalfOf(x, y).sent
  {
  }

  lemma TakeByA(a: Sketch, b: Sketch, works: bool)
    requires Pair(a, b) && a.inbox != []
    ensures Pair(Take(a, works), b) && (works ==> SameTangles(a, b, Take(a, works), b))
  {
    hide HalfOf, Take, Tangled, Paired, Coming, AfterEntry, Hearing;
    PartsOf(a, b);
    if Leaves in a.inbox {
      if works {
        CatchingUp(a, b);
      } else {
        CatchingUpBroken(a, b);
        ComingOf(b, a);
        ShorterForB(HalfOf(a, b), HalfOf(b, a), Coming(Take(a, works), b));
      }
    } else {
      PairTold(HalfOf(a, b), HalfOf(b, a));
      ToldStays(a, b, works);
      NextForA(a, b, works);
    }
  }

  lemma TakeByB(a: Sketch, b: Sketch, works: bool)
    requires Pair(a, b) && b.inbox != []
    ensures Pair(a, Take(b, works)) && (works ==> SameTangles(a, b, a, Take(b, works)))
  {
    hide HalfOf, Take, Tangled, Paired, Coming, AfterEntry, Hearing;
    PartsOf(b, a);
    if Leaves in b.inbox {
      if works {
        CatchingUp(b, a);
      } else {
        CatchingUpBroken(b, a);
        ComingOf(a, b);
        ShorterForA(HalfOf(a, b), HalfOf(b, a), Coming(Take(b, works), a));
      }
    } else {
      PairTold(HalfOf(a, b), HalfOf(b, a));
      ToldStays(b, a, works);
      NextForB(a, b, works);
    }
  }

  lemma ComingOf(x: Sketch, y: Sketch)
    ensures HalfOf(x, y).coming == Coming(y, x)
  {
  }

  lemma PairTold(a: Half, b: Half)
    requires Paired(a, b)
    ensures a.told && b.told && OwnIsLast(a.coming) && OwnIsLast(b.coming) && a.role == ClientA && b.role == ClientB
  {
  }

  lemma HeadOf(x: Sketch, y: Sketch)
    requires Leaves !in x.inbox && x.inbox != []
    ensures x.inbox[0] != Leaves
    ensures x.inbox[0].Line? ==> HalfOf(x, y).coming == [x.inbox[0].token] + HalfOf(Take(x, true), y).coming
  {
    TakingNext(x, y, true);
  }

  lemma NextForA(a: Sketch, b: Sketch, works: bool)
    requires Pair(a, b) && a.inbox != [] && Leaves !in a.inbox
    ensures var written := React(a.role, a.phase, a.sent, a.inbox[0], true, works).written;
            var a', b' := AfterEntry(HalfOf(a, b), a.inbox[0], works), Hearing(HalfOf(b, a), written);
            && Paired(a', b')
            && (works ==> (Tangled(a') <==> Tangled(HalfOf(a, b))) && (Tangled(b') <==> Tangled(HalfOf(b, a))))
  {
    hide HalfOf, Take, Tangled, Paired, Coming, Hearing;
    var x, y := HalfOf(a, b), HalfOf(b, a);
    PartsOf(a, b);
    PairTold(x, y);
    HeadOf(a, b);
    WrittenIsCurrent(x, a.inbox[0]);
    if works {
      HearingKeepsTangles(y, React(a.role, a.phase, a.sent, a.inbox[0], true, works).written);
    }
    match a.inbox[0]
    case Leaves =>
    case Joins =>
      JoinByA(x, y, works);
      SentKeepsTangle(x);
    case Line(t) =>
      LineToA(x, y, t, HalfOf(Take(a, true), b).coming, works);
      TakingKeepsTangles(x, t, HalfOf(Take(a, true), b).coming);
  }

  lemma NextForB(a: Sketch, b: Sketch, works: bool)
    requires Pair(a, b) && b.inbox != [] && Leaves !in b.inbox
    ensures var written := React(b.role, b.phase, b.sent, b.inbox[0], true, works).written;
            var a', b' := Hearing(HalfOf(a, b), written), AfterEntry(HalfOf(b, a), b.inbox[0], works);
            && Paired(a', b')
            && (works ==> (Tangled(a') <==> Tangled(HalfOf(a, b))) && (Tangled(b') <==> Tangled(HalfOf(b, a))))
  {
    hide HalfOf, Take, Tangled, Paired, Coming, Hearing;
    var x, y := HalfOf(a, b), HalfOf(b, a);
    PartsOf(b, a);
    PairTold(x, y);
    HeadOf(b, a);
    WrittenIsCurrent(y, b.inbox[0]);
    if works {
      HearingKeepsTangles(x, React(b.role, b.phase, b.sent, b.inbox[0], true, works).written);
    }
    match b.inbox[0]
    case Leaves =>
    case Joins =>
      JoinByB(x, y, works);
      SentKeepsTangle(y);
    case Line(t) =>
      LineToB(x, y, t, HalfOf(Take(b, true), a).coming, works);
      TakingKeepsTangles(y, t, HalfOf(Take(b, true), a).coming);
  }

  lemma SentKeepsTangle(x: Half)
    ensures Tangled(x.(sent := true)) <==> Tangled(x)
  {
  }

  // ---- A pair is formed ------------------------------------------------------------------------------------

  lemma NewPair(a: Half, b: Half)
    requires a.role == ClientA && b.role == ClientB
    requires a.phase == Idle && b.phase == Idle && !a.sent && !b.sent && a.told && b.told
    requires Sealed(true) !in a.coming && Sealed(true) !in b.coming
    ensures Paired(a, b)
  {
  }

  lemma {:induction false} NobodyPresent(inbox: seq<Entry>)
    requires inbox != [] && inbox[|inbox| - 1] == Leaves
    ensures Present(inbox) == []
  {
    if |inbox| > 1 {
      NobodyPresent(inbox[1..]);
    }
  }

  // A client meets one that was left alone.
  lemma Meeting(stayed: Sketch, newcomer: Sketch)
    requires newcomer.inbox == [Joins] && newcomer.phase == Idle && !newcomer.sent && newcomer.outbox == []
    requires stayed.inbox != [] && stayed.inbox[|stayed.inbox| - 1] == Joins && Sealed(true) !in stayed.outbox
    requires var before := stayed.inbox[..|stayed.inbox| - 1];
             if before == [] then stayed.phase == Idle && !stayed.sent else before[|before| - 1] == Leaves
    ensures var o, n := HalfOf(stayed, newcomer), HalfOf(newcomer, stayed);
            && o.phase == Idle && !o.sent && o.told && o.coming == []
            && n.phase == Idle && !n.sent && n.told &&
               n.coming == stayed.outbox + Prospect(stayed.role, stayed.phase, stayed.sent, stayed.inbox)
            && Sealed(true) !in n.coming
  {
    var before := stayed.inbox[..|stayed.inbox| - 1];
    assert stayed.inbox == before + [Joins];
    PresentAppend(before, Joins);
    if before != [] {
      NobodyPresent(before);
    }
    assert Present(stayed.inbox) == [Joins] && Present(newcomer.inbox) == [Joins];
    assert [Joins][1..] == [];
    assert TokensOf([Joins]) == [];
    ProspectIsStale(stayed.role, stayed.phase, stayed.sent, stayed.inbox);
    if before != [] {
      assert before[|before| - 1] in stayed.inbox;
    }
  }
}
