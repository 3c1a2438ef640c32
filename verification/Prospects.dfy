// What a client will still write for peers that have left, read off its inbox part by part: a part is
// what one peer filled, up to the notice that it left.
module Prospects {
  import opened Sessions
  import opened Sketches

  // ---- One part ---------------------------------------------------------------------------------

  predicate IsSealed(e: Entry) {
    e.Line? && e.token.Sealed?
  }

  // The client has heard a HELLO before the entry at k.
  predicate HeardBy(phase: Phase, part: seq<Entry>, k: nat)
    requires k <= |part|
  {
    phase == Greeted || Line(Greeting) in part[..k]
  }

  // The first signed message after a HELLO is at j, and is the client's own.
  predicate SealsAt(phase: Phase, part: seq<Entry>, j: nat) {
    && j < |part| && part[j] == Line(Sealed(true)) && HeardBy(phase, part, j)
    && forall k :: 0 <= k < j && IsSealed(part[k]) ==> !HeardBy(phase, part, k)
  }

  // A client that starts the part in this phase signs a message in it.
  ghost predicate Seals(role: Role, phase: Phase, part: seq<Entry>) {
    if role == ClientA then phase == Idle && Line(Greeting) in part
    else phase in {Idle, Greeted} && exists j: nat :: SealsAt(phase, part, j)
  }

  lemma HeardNext(phase: Phase, phase': Phase, part: seq<Entry>, k: nat)
    requires part != [] && k < |part| && phase in {Idle, Greeted}
    requires phase' == (if part[0] == Line(Greeting) then Greeted else phase)
    ensures HeardBy(phase, part, k + 1) <==> HeardBy(phase', part[1..], k)
  {
    assert part[..k + 1] == [part[0]] + part[1..][..k];
  }

  lemma {:induction false} SealsNext(phase: Phase, phase': Phase, part: seq<Entry>)
    requires part != [] && phase in {Idle, Greeted} && (phase == Greeted ==> !IsSealed(part[0]))
    requires phase' == (if part[0] == Line(Greeting) then Greeted else phase)
    ensures (exists j: nat :: SealsAt(phase, part, j)) <==> (exists j: nat :: SealsAt(phase', part[1..], j))
  {
    hide HeardBy;
    var rest := part[1..];
    forall k: nat | k < |part|
      ensures HeardBy(phase, part, k + 1) <==> HeardBy(phase', rest, k)
    {
      HeardNext(phase, phase', part, k);
    }
    NotHeardAtFirst(phase, part);
    if exists j: nat :: SealsAt(phase, part, j) {
      var j: nat :| SealsAt(phase, part, j);
      assert j > 0;
      forall k: nat | k < j - 1 && IsSealed(rest[k])
        ensures !HeardBy(phase', rest, k)
      {
        assert part[k + 1] == rest[k];
      }
      assert SealsAt(phase', rest, j - 1);
    }
    if exists j: nat :: SealsAt(phase', rest, j) {
      var j: nat :| SealsAt(phase', rest, j);
      forall k: nat | k < j + 1 && IsSealed(part[k])
        ensures !HeardBy(phase, part, k)
      {
        if k > 0 {
          assert part[k] == rest[k - 1];
        }
      }
      assert SealsAt(phase, part, j + 1);
    }
  }

  lemma NotHeardAtFirst(phase: Phase, part: seq<Entry>)
    ensures HeardBy(phase, part, 0) <==> phase == Greeted
  {
  }

  // The reaction to the first entry, and what the rest of the part adds.
  lemma {:induction false} SealsStep(role: Role, phase: Phase, sent: bool, part: seq<Entry>)
    requires part != [] && part[0] != Leaves
    ensures var r := React(role, phase, sent, part[0], false, true);
            Seals(role, phase, part) <==> Sealed(false) in r.written || Seals(role, r.phase, part[1..])
  {
    hide SealsAt;
    assert part == [part[0]] + part[1..];
    if role == ClientB && phase in {Idle, Greeted} {
      if phase == Greeted && IsSealed(part[0]) {
        SealedFirst(part);
      } else {
        SealsNext(phase, if part[0] == Line(Greeting) then Greeted else phase, part);
      }
    }
  }

  lemma SealedFirst(part: seq<Entry>)
    requires part != [] && IsSealed(part[0])
    ensures (exists j: nat :: SealsAt(Greeted, part, j)) <==> part[0] == Line(Sealed(true))
  {
    if part[0] == Line(Sealed(true)) {
      assert SealsAt(Greeted, part, 0);
    }
    if exists j: nat :: SealsAt(Greeted, part, j) {
      var j: nat :| SealsAt(Greeted, part, j);
      NotHeardAtFirst(Greeted, part);
    }
  }

  // ---- All parts --------------------------------------------------------------------------------

  // The client signs a message before it handles the first departure.
  ghost predicate SealsFirst(role: Role, phase: Phase, inbox: seq<Entry>) {
    exists p: nat :: p < |inbox| && inbox[p] == Leaves && Leaves !in inbox[..p] && Seals(role, phase, inbox[..p])
  }

  // It signs one in the part between two departures.
  ghost predicate SealsLater(role: Role, inbox: seq<Entry>) {
    exists p: nat, q: nat :: SealsBetween(role, inbox, p, q)
  }

  ghost predicate SealsBetween(role: Role, inbox: seq<Entry>, p: nat, q: nat) {
    && p < q < |inbox| && inbox[p] == Leaves && inbox[q] == Leaves && Leaves !in inbox[p + 1..q]
    && Seals(role, Idle, inbox[p + 1..q])
  }

  lemma {:induction false} FirstStep(role: Role, phase: Phase, sent: bool, inbox: seq<Entry>)
    requires Leaves in inbox && inbox[0] != Leaves
    ensures var r := React(role, phase, sent, inbox[0], false, true);
            SealsFirst(role, phase, inbox) <==> Sealed(false) in r.written || SealsFirst(role, r.phase, inbox[1..])
  {
    hide Seals;
    var r := React(role, phase, sent, inbox[0], false, true);
    var rest := inbox[1..];
    var p := FirstLeaves(inbox);
    assert inbox[..p][1..] == rest[..p - 1];
    SealsStep(role, phase, sent, inbox[..p]);
    assert rest[p - 1] == Leaves;
    assert Leaves !in rest[..p - 1] by { assert forall e :: e in rest[..p - 1] ==> e in inbox[..p]; }
    OnlyFirst(role, phase, inbox, p);
    OnlyFirst(role, r.phase, rest, p - 1);
  }

  lemma {:induction false} FirstLeaves(inbox: seq<Entry>) returns (p: nat)
    requires Leaves in inbox
    ensures p < |inbox| && inbox[p] == Leaves && Leaves !in inbox[..p]
  {
    if inbox[0] == Leaves {
      p := 0;
    } else {
      var k := FirstLeaves(inbox[1..]);
      p := k + 1;
      assert inbox[..p] == [inbox[0]] + inbox[1..][..k];
    }
  }

  lemma OnlyFirst(role: Role, phase: Phase, inbox: seq<Entry>, p: nat)
    requires p < |inbox| && inbox[p] == Leaves && Leaves !in inbox[..p]
    ensures SealsFirst(role, phase, inbox) <==> Seals(role, phase, inbox[..p])
  {
    hide Seals;
    forall q: nat | q < |inbox| && inbox[q] == Leaves && Leaves !in inbox[..q]
      ensures q == p
    {
      InPrefix(inbox, q, p);
      InPrefix(inbox, p, q);
    }
  }

  lemma InPrefix(inbox: seq<Entry>, p: nat, q: nat)
    requires p < |inbox| && inbox[p] == Leaves && q <= |inbox|
    ensures p < q ==> Leaves in inbox[..q]
  {
  }

  lemma BetweenShifts(role: Role, inbox: seq<Entry>, p: nat, q: nat)
    requires inbox != []
    ensures SealsBetween(role, inbox, p + 1, q + 1) <==> SealsBetween(role, inbox[1..], p, q)
  {
    hide Seals;
    if p < q < |inbox| - 1 {
      assert inbox[p + 2..q + 1] == inbox[1..][p + 1..q];
    }
  }

  lemma BetweenFromStart(role: Role, inbox: seq<Entry>, q: nat)
    requires inbox != [] && inbox[0] == Leaves
    ensures SealsBetween(role, inbox, 0, q + 1) <==>
      q < |inbox[1..]| && inbox[1..][q] == Leaves && Leaves !in inbox[1..][..q] && Seals(role, Idle, inbox[1..][..q])
  {
    hide Seals;
    if q < |inbox| - 1 {
      assert inbox[1..q + 1] == inbox[1..][..q];
    }
  }

  lemma {:induction false} LaterStep(role: Role, inbox: seq<Entry>)
    requires inbox != []
    ensures inbox[0] != Leaves ==> (SealsLater(role, inbox) <==> SealsLater(role, inbox[1..]))
    ensures inbox[0] == Leaves ==>
      (SealsLater(role, inbox) <==> SealsFirst(role, Idle, inbox[1..]) || SealsLater(role, inbox[1..]))
  {
    hide Seals, SealsBetween;
    var rest := inbox[1..];
    if SealsLater(role, inbox) {
      var p: nat, q: nat :| SealsBetween(role, inbox, p, q);
      AtDepartures(role, inbox, p, q);
      if p > 0 {
        BetweenShifts(role, inbox, p - 1, q - 1);
      } else {
        BetweenFromStart(role, inbox, q - 1);
      }
    }
    if SealsLater(role, rest) {
      var p: nat, q: nat :| SealsBetween(role, rest, p, q);
      BetweenShifts(role, inbox, p, q);
    }
    if inbox[0] == Leaves && SealsFirst(role, Idle, rest) {
      var p: nat :| p < |rest| && rest[p] == Leaves && Leaves !in rest[..p] && Seals(role, Idle, rest[..p]);
      BetweenFromStart(role, inbox, p);
    }
  }

  lemma AtDepartures(role: Role, inbox: seq<Entry>, p: nat, q: nat)
    requires SealsBetween(role, inbox, p, q)
    ensures p < q < |inbox| && inbox[p] == Leaves
  {
  }

  // ---- What is written --------------------------------------------------------------------------

  // A HELLO followed by a signed message of an earlier session.
  ghost predicate Knots(ts: seq<Token>) {
    exists i, j :: 0 <= i < j < |ts| && ts[i] == Greeting && ts[j] == Sealed(false)
  }

  lemma KnotsOf(xs: seq<Token>, ys: seq<Token>)
    ensures Knots(xs + ys) <==> Knots(xs) || Knots(ys) || (Greeting in xs && Sealed(false) in ys)
  {
    var all := xs + ys;
    if Knots(all) {
      var i, j :| 0 <= i < j < |all| && all[i] == Greeting && all[j] == Sealed(false);
      if i >= |xs| {
        assert ys[i - |xs|] == Greeting && ys[j - |xs|] == Sealed(false);
      } else if j < |xs| {
        assert xs[i] == Greeting && xs[j] == Sealed(false);
      }
    }
    if Knots(xs) {
      var i, j :| 0 <= i < j < |xs| && xs[i] == Greeting && xs[j] == Sealed(false);
      assert all[i] == Greeting && all[j] == Sealed(false);
    }
    if Knots(ys) {
      var i, j :| 0 <= i < j < |ys| && ys[i] == Greeting && ys[j] == Sealed(false);
      assert all[|xs| + i] == Greeting && all[|xs| + j] == Sealed(false);
    }
    if Greeting in xs && Sealed(false) in ys {
      var i, j :| 0 <= i < |xs| && 0 <= j < |ys| && xs[i] == Greeting && ys[j] == Sealed(false);
      assert all[i] == Greeting && all[|xs| + j] == Sealed(false);
    }
  }

  lemma KnotsOfWritten(role: Role, phase: Phase, sent: bool, e: Entry)
    ensures var w := React(role, phase, sent, e, false, true).written;
            Knots(w) <==> Greeting in w && Sealed(false) in w
  {
    var w := React(role, phase, sent, e, false, true).written;
    if |w| == 2 {
      assert w[0] == Greeting && w[1] == Sealed(false);
    }
  }

  // Signed messages still to be written, and HELLOs before them.
  lemma {:induction false} ProspectExactly(role: Role, phase: Phase, sent: bool, inbox: seq<Entry>)
    requires phase != Idle ==> sent
    ensures var w := Prospect(role, phase, sent, inbox);
            && (Sealed(false) in w <==> SealsFirst(role, phase, inbox) || SealsLater(role, inbox))
            && (Knots(w) <==> (SealsFirst(role, phase, inbox) && !sent) || SealsLater(role, inbox))
    decreases |inbox|
  {
    hide Prospect, Seals, SealsFirst, SealsLater, Knots;
    if Leaves !in inbox {
      NoProspect(role, phase, sent, inbox);
      NoDeparture(role, phase, inbox);
    } else {
      var rest := inbox[1..];
      var r := React(role, phase, sent, inbox[0], false, true);
      NextProspect(role, phase, sent, inbox);
      LaterStep(role, inbox);
      ProspectExactly(role, r.phase, r.sent, rest);
      KnotsOf(r.written, Prospect(role, r.phase, r.sent, rest));
      KnotsOfWritten(role, phase, sent, inbox[0]);
      assert inbox == [inbox[0]] + rest;
      if inbox[0] == Leaves {
        OnlyFirst(role, phase, inbox, 0);
        NothingSealed(role, phase);
        assert [] + Prospect(role, Idle, false, rest) == Prospect(role, Idle, false, rest);
      } else {
        FirstStep(role, phase, sent, inbox);
      }
    }
  }

  lemma NoDeparture(role: Role, phase: Phase, inbox: seq<Entry>)
    requires Leaves !in inbox
    ensures !SealsFirst(role, phase, inbox) && !SealsLater(role, inbox) && !Knots([])
  {
  }

  lemma NothingSealed(role: Role, phase: Phase)
    ensures !Seals(role, phase, [])
  {
  }

  // ---- A pair of clients ------------------------------------------------------------------------

  // What is written for a client already.
  function Ahead(x: Sketch, y: Sketch): seq<Token> {
    TokensOf(Present(x.inbox)) + y.outbox
  }

  // Tangled is a fact about the lines written already and the parts of the peer's inbox.
  lemma TangledExactly(x: Sketch, y: Sketch)
    requires y.phase != Idle ==> y.sent
    ensures var half, ahead := HalfOf(x, y), Ahead(x, y);
            var first, later := SealsFirst(y.role, y.phase, y.inbox), SealsLater(y.role, y.inbox);
            Tangled(half) <==>
              || Tangled(half.(coming := ahead))
              || (half.phase == Greeted && (first || later))
              || (half.phase == Idle && (later || (first && (!y.sent || Greeting in ahead))))
  {
    hide Prospect, SealsFirst, SealsLater, Present, TokensOf;
    var w := Prospect(y.role, y.phase, y.sent, y.inbox);
    ProspectExactly(y.role, y.phase, y.sent, y.inbox);
    KnotsOf(Ahead(x, y), w);
    assert Coming(y, x) == Ahead(x, y) + w;
  }
}
