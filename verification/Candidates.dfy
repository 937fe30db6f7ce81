/** What becomes of every candidate two negotiating peers send each other (apps/web/lib/peer-mesh.ts). */
module Candidates {
  import opened Options
  import opened PeerLink
  import opened Negotiation

  /** Nothing of what came in is lost or reordered, and whoever agreed on an exchange has a remote description. */
  ghost predicate Tracks(p: PeerState) {
    && Coherent(p) && Conserves(p) && KeepsOrder(p) && Collects(p)
    && (p.connection.agreed.Some? ==> p.connection.hasRemote)
  }

  lemma AgreementNeedsARemote(p: PeerState, e: PeerLink.Event)
    requires Enabled(p, e) && Coherent(p) && (p.connection.agreed.Some? ==> p.connection.hasRemote)
    ensures var c := PeerLink.Step(p, e).connection; c.agreed.Some? ==> c.hasRemote
  {
  }

  lemma EventKeepsTrack(p: PeerState, e: PeerLink.Event)
    requires Enabled(p, e) && Tracks(p) && (e.Received? ==> OnePart(e.signal))
    ensures Tracks(PeerLink.Step(p, e))
  {
    StepKeepsCoherence(p, e);
    StepConserves(p, e);
    StepKeepsOrder(p, e);
    StepCollects(p, e);
    AgreementNeedsARemote(p, e);
  }

  // ---- Candidates wait for a remote description ---------------------------------------------------

  /** The candidate a signal without a description is taken up for. */
  function NextCandidate(p: PeerState, e: PeerLink.Event): seq<Candidate> {
    if e.Started? && p.queue != [] && p.queue[0].description.None? && p.queue[0].candidate.Some?
    then [p.queue[0].candidate.value] else []
  }

  /** The candidates taken up before there is a remote description, while an offer is being ignored. */
  ghost function Ignored(p: PeerState, es: seq<PeerLink.Event>): seq<Candidate>
    requires Runs(p, es)
    decreases |es|
  {
    if es == [] then []
    else
      var rest := Ignored(PeerLink.Step(p, es[0]), es[1..]);
      if !p.connection.hasRemote && p.ignoreOffer then NextCandidate(p, es[0]) + rest else rest
  }

  /** Those taken up before there is a remote description, while no offer is being ignored. */
  ghost function Waiting(p: PeerState, es: seq<PeerLink.Event>): seq<Candidate>
    requires Runs(p, es)
    decreases |es|
  {
    if es == [] then []
    else
      var rest := Waiting(PeerLink.Step(p, es[0]), es[1..]);
      if !p.connection.hasRemote && !p.ignoreOffer then NextCandidate(p, es[0]) + rest else rest
  }

  /** Those taken up once there is a remote description. */
  ghost function Prompt(p: PeerState, es: seq<PeerLink.Event>): seq<Candidate>
    requires Runs(p, es)
    decreases |es|
  {
    if es == [] then []
    else
      var rest := Prompt(PeerLink.Step(p, es[0]), es[1..]);
      if p.connection.hasRemote then NextCandidate(p, es[0]) + rest else rest
  }

  lemma StepHands(p: PeerState, e: PeerLink.Event)
    requires Enabled(p, e) && Coherent(p) && Collects(p)
    ensures var q, c := PeerLink.Step(p, e), NextCandidate(p, e);
      && (p.connection.hasRemote ==>
            q.connection.hasRemote && q.connection.handed == p.connection.handed + c)
      && (!p.connection.hasRemote && q.connection.hasRemote ==>
            c == [] && q.connection.handed == p.connection.handed + p.pending && q.pending == [])
      && (!q.connection.hasRemote && p.ignoreOffer ==>
            q.connection.handed == p.connection.handed + c && q.pending == p.pending)
      && (!q.connection.hasRemote && !p.ignoreOffer ==>
            q.connection.handed == p.connection.handed && q.pending == p.pending + c)
  {
    StepKeepsCoherence(p, e);
    if e.Started? { assert OnePart(p.queue[0]); }
  }

  lemma {:induction false} OnlyPrompt(p: PeerState, es: seq<PeerLink.Event>)
    requires Runs(p, es) && Coherent(p) && Collects(p) && p.connection.hasRemote
    requires forall e <- es :: e.Received? ==> OnePart(e.signal)
    ensures Ignored(p, es) == [] && Waiting(p, es) == []
    ensures var q := After(p, es);
      q.connection.hasRemote && q.pending == [] && q.connection.handed == p.connection.handed + Prompt(p, es)
    decreases |es|
  {
    if es != [] {
      assert es[0] in es;
      var q := PeerLink.Step(p, es[0]);
      StepHands(p, es[0]);
      StepKeepsCoherence(p, es[0]);
      StepCollects(p, es[0]);
      OnlyPrompt(q, es[1..]);
      Grouped(p.connection.handed, NextCandidate(p, es[0]), Prompt(q, es[1..]));
    }
  }

  /** What a peer has handed over and still buffers, after a run from a state without a remote description. */
  ghost predicate HandsInOrder(p: PeerState, es: seq<PeerLink.Event>)
    requires Runs(p, es)
  {
    var q := After(p, es);
    if q.connection.hasRemote then
      && q.pending == []
      && q.connection.handed ==
           p.connection.handed + Ignored(p, es) + (p.pending + Waiting(p, es)) + Prompt(p, es)
    else
      && q.pending == p.pending + Waiting(p, es)
      && q.connection.handed == p.connection.handed + Ignored(p, es)
  }

  lemma {:induction false} RunHandsInOrder(p: PeerState, es: seq<PeerLink.Event>)
    requires Runs(p, es) && Coherent(p) && Collects(p) && !p.connection.hasRemote
    requires forall e <- es :: e.Received? ==> OnePart(e.signal)
    ensures HandsInOrder(p, es)
    decreases |es|
  {
    if es != [] {
      assert es[0] in es;
      var q := PeerLink.Step(p, es[0]);
      StepHands(p, es[0]);
      StepKeepsCoherence(p, es[0]);
      StepCollects(p, es[0]);
      if q.connection.hasRemote {
        OnlyPrompt(q, es[1..]);
      } else {
        RunHandsInOrder(q, es[1..]);
        Grouped(p.connection.handed, NextCandidate(p, es[0]), Ignored(q, es[1..]));
        Grouped(p.pending, NextCandidate(p, es[0]), Waiting(q, es[1..]));
      }
    }
  }

  /**
   * Before a remote description a peer has handed over exactly the candidates taken up while it ignored an
   * offer, and buffers all the others; from then on it has handed over those, then the buffered ones, and then
   * all later ones as they came, and buffers nothing.
   */
  lemma CandidatesWaitForADescription(es: seq<PeerLink.Event>)
    requires Runs(FreshPeer, es) && forall e <- es :: e.Received? ==> OnePart(e.signal)
    ensures var q := After(FreshPeer, es);
      && (!q.connection.hasRemote ==>
            q.connection.handed == Ignored(FreshPeer, es) && q.pending == Waiting(FreshPeer, es))
      && (q.connection.hasRemote ==>
            && q.connection.handed == Ignored(FreshPeer, es) + Waiting(FreshPeer, es) + Prompt(FreshPeer, es)
            && q.pending == [])
  {
    RunHandsInOrder(FreshPeer, es);
    assert [] + Ignored(FreshPeer, es) == Ignored(FreshPeer, es);
    assert [] + Waiting(FreshPeer, es) == Waiting(FreshPeer, es);
  }

  /** A peer that is always polite ignores nothing, so it hands every candidate over in the order taken up. */
  lemma {:induction false} PoliteHandsInOrder(p: PeerState, es: seq<PeerLink.Event>)
    requires Runs(p, es) && Coherent(p) && !p.ignoreOffer
    requires p.connection.handed + p.pending == p.applied && (!p.connection.hasRemote ==> p.connection.handed == [])
    requires forall e <- es :: e.Started? ==> e.polite
    ensures var q := After(p, es);
      q.connection.handed + q.pending == q.applied && (!q.connection.hasRemote ==> q.connection.handed == [])
    decreases |es|
  {
    if es != [] {
      assert es[0] in es;
      StepKeepsCoherence(p, es[0]);
      PoliteStepHandsInOrder(p, es[0]);
      PoliteHandsInOrder(PeerLink.Step(p, es[0]), es[1..]);
    }
  }

  lemma PoliteStepHandsInOrder(p: PeerState, e: PeerLink.Event)
    requires Enabled(p, e) && Coherent(p) && !p.ignoreOffer && (e.Started? ==> e.polite)
    requires p.connection.handed + p.pending == p.applied && (!p.connection.hasRemote ==> p.connection.handed == [])
    ensures var q := PeerLink.Step(p, e);
      && !q.ignoreOffer
      && q.connection.handed + q.pending == q.applied && (!q.connection.hasRemote ==> q.connection.handed == [])
  {
  }

  lemma Grouped<T>(a: seq<T>, b: seq<T>, c: seq<T>)
    ensures a + b + c == a + (b + c)
  {
  }

  // ---- Every candidate arrives --------------------------------------------------------------------

  function Opposite(side: Side): Side {
    if side.Low? then High else Low
  }

  /** The candidate a move sends, if it sends one. */
  function Sends(m: Move): seq<Candidate> {
    if m.action.Trickle? && m.action.signal.candidate.Some? then [m.action.signal.candidate.value] else []
  }

  /** The candidates one side sends in a run, in order. */
  function Trickled(ms: seq<Move>, side: Side): seq<Candidate> {
    if ms == [] then []
    else if ms[0].side == side then Sends(ms[0]) + Trickled(ms[1..], side)
    else Trickled(ms[1..], side)
  }

  /** The candidates that have reached a side, taken up or not. */
  function Arrived(p: PeerState): seq<Candidate> {
    CandidatesOf(p.received)
  }

  lemma ActorMoves(s: System, m: Move)
    requires Possible(s, m) && Tracks(Actor(s, m.side))
    ensures Tracks(Actor(Next(s, m), m.side)) && Arrived(Actor(Next(s, m), m.side)) == Arrived(Actor(s, m.side))
  {
    var p := Actor(s, m.side);
    if !m.action.Trickle? {
      var e := EventOf(s, m);
      EventKeepsTrack(p, e);
      match e
      case Started(polite) => SignalsAfterStart(p, polite);
      case _ => SignalsAfter(p, e);
    }
  }

  lemma SignalArrives(p: PeerState, x: Signal)
    requires Tracks(p) && OnePart(x)
    ensures Tracks(Receive(p, x))
    ensures Arrived(Receive(p, x)) ==
      Arrived(p) + if x.description.None? && x.candidate.Some? then [x.candidate.value] else []
  {
    EventKeepsTrack(p, Received(x));
    CandidatesAppend(p.received, x);
  }

  lemma OtherReceives(s: System, m: Move)
    requires Possible(s, m) && Tracks(Actor(s, Opposite(m.side)))
    ensures var p, q := Actor(s, Opposite(m.side)), Actor(Next(s, m), Opposite(m.side));
      Tracks(q) && Arrived(q) == Arrived(p) + Sends(m)
  {
    var p, x := Actor(s, Opposite(m.side)), Outgoing(s, m);
    assert Actor(Next(s, m), Opposite(m.side)) == Sent(p, x);
    if x.Some? {
      SignalArrives(p, x.value);
    } else {
      assert Sends(m) == [];
    }
  }

  ghost predicate BothTrack(s: System) {
    Tracks(Actor(s, Low)) && Tracks(Actor(s, High))
  }

  lemma NextDelivers(s: System, m: Move, side: Side)
    requires Possible(s, m) && BothTrack(s)
    ensures BothTrack(Next(s, m))
    ensures Arrived(Actor(Next(s, m), side)) ==
      if m.side == Opposite(side) then Arrived(Actor(s, side)) + Sends(m) else Arrived(Actor(s, side))
  {
    var s' := Next(s, m);
    ActorMoves(s, m);
    OtherReceives(s, m);
    assert Tracks(Actor(s', m.side)) && Tracks(Actor(s', Opposite(m.side)));
    assert side == m.side || side == Opposite(m.side);
  }

  lemma {:induction false} RunDelivers(s: System, ms: seq<Move>, side: Side)
    requires Run(s, ms) && BothTrack(s)
    ensures BothTrack(Result(s, ms))
    ensures Arrived(Actor(Result(s, ms), side)) == Arrived(Actor(s, side)) + Trickled(ms, Opposite(side))
    decreases |ms|
  {
    if ms != [] {
      Grouped(Arrived(Actor(s, side)), Sends(ms[0]), Trickled(ms[1..], Opposite(side)));
      NextDelivers(s, ms[0], side);
      RunDelivers(Next(s, ms[0]), ms[1..], side);
    }
  }

  lemma ArrivedIsHandedOver(p: PeerState)
    requires Tracks(p) && p.queue == [] && p.connection.agreed.Some?
    ensures p.pending == [] && multiset(p.connection.handed) == multiset(Arrived(p))
  {
    assert p.received == p.started;
  }

  /**
   * Once a pair has settled on an exchange, nothing is left in either buffer, and each browser was handed
   * exactly the candidates the other side sent, as often as it sent them - whatever was ignored, buffered,
   * rolled back or refused on the way.
   */
  lemma EveryCandidateArrives(s0: System, ms: seq<Move>, side: Side)
    requires Initial(s0) && Run(s0, ms)
    requires Settled(Result(s0, ms)) && Result(s0, ms).nextId > s0.nextId
    ensures var p := Actor(Result(s0, ms), side);
      && p.pending == []
      && multiset(p.connection.handed) == multiset(Trickled(ms, Opposite(side)))
  {
    RunDelivers(s0, ms, side);
    EveryNegotiationSettles(s0, ms);
    ArrivedIsHandedOver(Actor(Result(s0, ms), side));
    assert Arrived(Actor(s0, side)) == [];
  }
}
