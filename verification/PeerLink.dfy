/**
 * One end of a peer connection (peer-mesh.ts): the browser's connection as far as negotiation sees it,
 * the handler of `negotiationneeded`, and the serialized application of received signals.
 *
 * The handlers are cut at the awaits other code can run in between: `Negotiate` up to the await of
 * `setLocalDescription`, `SendOffer` after it, `StartNext` up to the await of `setRemoteDescription`,
 * `Install` after it with the whole candidate loop, `SendAnswer` for the answer. While candidates are
 * being added the operations chain is never empty, so no other handler of this peer can run.
 */
module PeerLink {
  import opened Options

  /** Session descriptions, identified by the offer they are or the offer they answer. */
  datatype Description = Offer(id: nat) | Answer(id: nat)

  datatype Candidate = EndOfCandidates | IceCandidate(id: nat)

  /** A signal without either part carries media metadata only. */
  datatype Signal = Signal(description: Option<Description>, candidate: Option<Candidate>)

  // ---- The browser's connection -------------------------------------------------------------------

  datatype Signaling = Stable | HaveLocalOffer(id: nat) | HaveRemoteOffer(id: nat)

  /** `agreed` names the offer of the last completed exchange, `handed` what addIceCandidate was given. */
  datatype Connection = Connection(
    signaling: Signaling,
    hasRemote: bool,
    agreed: Option<nat>,
    handed: seq<Candidate>)

  /** What setLocalDescription() without an argument creates: an answer if an offer is waiting for one. */
  function LocalDescription(c: Connection, nextId: nat): Description {
    if c.signaling.HaveRemoteOffer? then Answer(c.signaling.id) else Offer(nextId)
  }

  function SetLocal(c: Connection, nextId: nat): Connection {
    match LocalDescription(c, nextId)
    case Offer(id) => c.(signaling := HaveLocalOffer(id))
    case Answer(id) => c.(signaling := Stable, agreed := Some(id))
  }

  /** Section 3.2 of RFC 8829; an offer is always acceptable because a local one is rolled back (4.1.10.2). */
  predicate AcceptsRemote(c: Connection, d: Description) {
    d.Offer? || c.signaling.HaveLocalOffer?
  }

  function SetRemote(c: Connection, d: Description): Connection
    requires AcceptsRemote(c, d)
  {
    match d
    case Offer(id) => c.(signaling := HaveRemoteOffer(id), hasRemote := true)
    case Answer(id) => c.(signaling := Stable, hasRemote := true, agreed := Some(id))
  }

  // ---- The peer record as a value -----------------------------------------------------------------

  /** Where the signal now being applied is suspended. */
  datatype Task = Idle | Installing(signal: Signal) | Answering(failed: bool, candidate: Option<Candidate>)

  /** `received`, `started` and `applied` record history: signals in arrival order and in the order they
      were taken up, and the candidates that reached the candidate branch. */
  datatype PeerState = PeerState(
    connection: Connection,
    makingOffer: bool,
    ignoreOffer: bool,
    answerPending: bool,
    pending: seq<Candidate>,
    task: Task,
    queue: seq<Signal>,
    received: seq<Signal>,
    started: seq<Signal>,
    applied: seq<Candidate>)

  const FreshPeer :=
    PeerState(Connection(Stable, false, None, []), false, false, false, [], Idle, [], [], [], [])

  /** `negotiationneeded` fires only on a stable connection whose operations chain is empty. */
  predicate MayNegotiate(p: PeerState) {
    p.connection.signaling.Stable? && !p.makingOffer && p.task.Idle?
  }

  function Negotiate(p: PeerState): PeerState {
    p.(makingOffer := true)
  }

  function SendOffer(p: PeerState, nextId: nat): PeerState {
    p.(connection := SetLocal(p.connection, nextId), makingOffer := false)
  }

  /** Nothing is sent when setLocalDescription fails. */
  function AbandonOffer(p: PeerState): PeerState {
    p.(makingOffer := false)
  }

  function Receive(p: PeerState, signal: Signal): PeerState {
    p.(queue := p.queue + [signal], received := p.received + [signal])
  }

  /** Whether a description collides with this peer's own negotiation, as applySignal computes it. */
  predicate Collides(p: PeerState, d: Description) {
    d.Offer? && !(!p.makingOffer && (p.connection.signaling.Stable? || p.answerPending))
  }

  function ApplyCandidate(p: PeerState, candidate: Option<Candidate>): PeerState {
    match candidate
    case None => p.(task := Idle)
    case Some(c) =>
      var q := p.(task := Idle, applied := p.applied + [c]);
      if !p.connection.hasRemote && !p.ignoreOffer then
        q.(pending := p.pending + [c])
      else
        q.(connection := p.connection.(handed := p.connection.handed + [c]))
  }

  function StartNext(p: PeerState, polite: bool): PeerState
    requires p.queue != []
  {
    var signal := p.queue[0];
    var q := p.(queue := p.queue[1..], started := p.started + [signal]);
    match signal.description
    case None => ApplyCandidate(q, signal.candidate)
    case Some(d) =>
      if !polite && Collides(p, d) then
        q.(ignoreOffer := true)
      else
        q.(ignoreOffer := false, answerPending := d.Answer?, task := Installing(signal))
  }

  /** A signal whose earlier part failed is abandoned before its candidate. */
  function Complete(p: PeerState, failed: bool, candidate: Option<Candidate>): PeerState {
    if failed then p.(task := Idle) else ApplyCandidate(p, candidate)
  }

  /** `valid` is the browser's verdict on the description, `rejected` the candidates it will not take. */
  function Install(p: PeerState, valid: bool, rejected: set<Candidate>): PeerState
    requires p.task.Installing? && p.task.signal.description.Some?
  {
    var d := p.task.signal.description.value;
    var candidate := p.task.signal.candidate;
    if !valid || !AcceptsRemote(p.connection, d) then
      p.(answerPending := false, task := Idle)
    else
      var c := SetRemote(p.connection, d);
      var q := p.(answerPending := false, connection := c.(handed := c.handed + p.pending), pending := []);
      var failed := exists x :: x in p.pending && x in rejected;
      if d.Offer? then q.(task := Answering(failed, candidate)) else Complete(q, failed, candidate)
  }

  function SendAnswer(p: PeerState, nextId: nat): PeerState
    requires p.task.Answering?
  {
    Complete(p.(connection := SetLocal(p.connection, nextId)), p.task.failed, p.task.candidate)
  }

  // ---- What one peer keeps, whatever the browser, the network and the other side do ---------------

  datatype Event =
    | Negotiating
    | OfferSent(nextId: nat)
    | OfferFailed
    | Received(signal: Signal)
    | Started(polite: bool)
    | Installed(valid: bool, rejected: set<Candidate>)
    | Answered(nextId: nat)

  /** `Started` waits for the signal before it; an installation waits for an offer begun before it. */
  predicate Enabled(p: PeerState, e: Event) {
    match e
    case Negotiating => MayNegotiate(p)
    case OfferSent(_) => p.makingOffer
    case OfferFailed => p.makingOffer
    case Received(_) => true
    case Started(_) => p.task.Idle? && p.queue != []
    case Installed(_, _) => p.task.Installing? && p.task.signal.description.Some? && !p.makingOffer
    case Answered(_) => p.task.Answering?
  }

  function Step(p: PeerState, e: Event): PeerState
    requires Enabled(p, e)
  {
    match e
    case Negotiating => Negotiate(p)
    case OfferSent(nextId) => SendOffer(p, nextId)
    case OfferFailed => AbandonOffer(p)
    case Received(signal) => Receive(p, signal)
    case Started(polite) => StartNext(p, polite)
    case Installed(valid, rejected) => Install(p, valid, rejected)
    case Answered(nextId) => SendAnswer(p, nextId)
  }

  ghost predicate Runs(p: PeerState, es: seq<Event>)
    decreases |es|
  {
    es == [] || (Enabled(p, es[0]) && Runs(Step(p, es[0]), es[1..]))
  }

  ghost function After(p: PeerState, es: seq<Event>): PeerState
    requires Runs(p, es)
    decreases |es|
  {
    if es == [] then p else After(Step(p, es[0]), es[1..])
  }

  /** Nothing is lost or invented between the candidate branch, the buffer and the browser. */
  ghost predicate Conserves(p: PeerState) {
    multiset(p.applied) == multiset(p.connection.handed) + multiset(p.pending)
  }

  /** Signals are taken up strictly in the order they arrived, and none is skipped. */
  ghost predicate KeepsOrder(p: PeerState) {
    p.received == p.started + p.queue
  }

  /** The answer flag marks exactly the installation of an answer, and the tasks match the signaling state. */
  ghost predicate Coherent(p: PeerState) {
    && (p.task.Installing? ==> p.task.signal.description.Some?)
    && (p.answerPending <==> p.task.Installing? && p.task.signal.description.value.Answer?)
    && (p.connection.hasRemote ==> p.pending == [])
    && (p.makingOffer ==> p.connection.signaling.Stable? && !p.task.Answering?)
    && (p.task.Answering? <==> p.connection.signaling.HaveRemoteOffer?)
    && (p.task.Answering? ==> p.connection.hasRemote)
  }

  lemma ApplyCandidateConserves(p: PeerState, candidate: Option<Candidate>)
    requires Conserves(p)
    ensures Conserves(ApplyCandidate(p, candidate))
    ensures ApplyCandidate(p, candidate).received == p.received
    ensures ApplyCandidate(p, candidate).started == p.started
    ensures ApplyCandidate(p, candidate).queue == p.queue
  {
  }

  lemma StartConserves(p: PeerState, polite: bool)
    requires Enabled(p, Started(polite)) && Conserves(p)
    ensures Conserves(StartNext(p, polite))
  {
    var q := p.(queue := p.queue[1..], started := p.started + [p.queue[0]]);
    ApplyCandidateConserves(q, p.queue[0].candidate);
  }

  lemma CompleteConserves(p: PeerState, failed: bool, candidate: Option<Candidate>)
    requires Conserves(p)
    ensures Conserves(Complete(p, failed, candidate))
  {
    if !failed { ApplyCandidateConserves(p, candidate); }
  }

  lemma EmptyingConserves(p: PeerState, c: Connection)
    requires Conserves(p) && c.handed == p.connection.handed
    ensures Conserves(p.(answerPending := false, connection := c.(handed := c.handed + p.pending), pending := []))
  {
  }

  lemma InstallConserves(p: PeerState, valid: bool, rejected: set<Candidate>)
    requires Enabled(p, Installed(valid, rejected)) && Conserves(p)
    ensures Conserves(Install(p, valid, rejected))
  {
    var d := p.task.signal.description.value;
    if valid && AcceptsRemote(p.connection, d) {
      var c := SetRemote(p.connection, d);
      EmptyingConserves(p, c);
      CompleteConserves(p.(answerPending := false, connection := c.(handed := c.handed + p.pending), pending := []),
        exists x :: x in p.pending && x in rejected, p.task.signal.candidate);
    }
  }

  lemma AnswerConserves(p: PeerState, nextId: nat)
    requires Enabled(p, Answered(nextId)) && Conserves(p)
    ensures Conserves(SendAnswer(p, nextId))
  {
    CompleteConserves(p.(connection := SetLocal(p.connection, nextId)), p.task.failed, p.task.candidate);
  }

  lemma StepConserves(p: PeerState, e: Event)
    requires Enabled(p, e) && Conserves(p)
    ensures Conserves(Step(p, e))
  {
    match e
    case Started(polite) => StartConserves(p, polite);
    case Installed(valid, rejected) => InstallConserves(p, valid, rejected);
    case Answered(nextId) => AnswerConserves(p, nextId);
    case _ =>
  }

  /** What a step does to the signals: only `Received` and `Started` move any. */
  lemma SignalsAfter(p: PeerState, e: Event)
    requires Enabled(p, e) && !e.Received? && !e.Started?
    ensures var r := Step(p, e); r.started == p.started && r.queue == p.queue && r.received == p.received
  {
  }

  lemma SignalsAfterStart(p: PeerState, polite: bool)
    requires p.task.Idle? && p.queue != []
    ensures var r := StartNext(p, polite);
      r.started == p.started + [p.queue[0]] && r.queue == p.queue[1..] && r.received == p.received
  {
  }

  lemma StepKeepsOrder(p: PeerState, e: Event)
    requires Enabled(p, e) && KeepsOrder(p)
    ensures KeepsOrder(Step(p, e))
  {
    match e
    case Received(signal) =>
      assert p.started + (p.queue + [signal]) == (p.started + p.queue) + [signal];
    case Started(polite) =>
      SignalsAfterStart(p, polite);
      assert p.started + p.queue == p.started + [p.queue[0]] + p.queue[1..];
    case _ =>
      SignalsAfter(p, e);
  }

  lemma StepKeepsCoherence(p: PeerState, e: Event)
    requires Enabled(p, e) && Coherent(p)
    ensures Coherent(Step(p, e))
  {
  }

  /** Over every run: candidates are conserved, signals keep their order, and the flags stay coherent. */
  lemma {:induction false} RunKeeps(p: PeerState, es: seq<Event>)
    requires Runs(p, es) && Coherent(p) && Conserves(p) && KeepsOrder(p)
    ensures Coherent(After(p, es)) && Conserves(After(p, es)) && KeepsOrder(After(p, es))
    decreases |es|
  {
    if es != [] {
      StepConserves(p, es[0]);
      StepKeepsOrder(p, es[0]);
      StepKeepsCoherence(p, es[0]);
      RunKeeps(Step(p, es[0]), es[1..]);
    }
  }

  /** Where applySignal reads the answer flag the queue has already made it false. */
  lemma AnswerFlagIsUnread(es: seq<Event>)
    requires Runs(FreshPeer, es) && After(FreshPeer, es).task.Idle?
    ensures !After(FreshPeer, es).answerPending
  {
    RunKeeps(FreshPeer, es);
  }

  /**
   * Whatever the browser makes of a description and of the buffered candidates, its signal is finished and the
   * next one can be taken up. A description that is installed empties the buffer, an offer among them is
   * answered, and the signal's own candidate is taken up unless a buffered one was refused; one that is not
   * installed changes nothing.
   */
  lemma EverySignalIsFinished(p: PeerState, valid: bool, rejected: set<Candidate>, nextId: nat)
    requires Coherent(p) && Enabled(p, Installed(valid, rejected))
    ensures var d := p.task.signal.description.value; var q := Step(p, Installed(valid, rejected));
      var r := if d.Offer? && valid then SendAnswer(q, nextId) else q;
      var own := if p.task.signal.candidate.Some? && (forall x <- p.pending :: x !in rejected)
                 then [p.task.signal.candidate.value] else [];
      && r.task.Idle? && r.queue == p.queue && !r.answerPending
      && (if valid && (d.Offer? || p.connection.signaling.HaveLocalOffer?) then
            && r.connection == Connection(Stable, true, Some(d.id), p.connection.handed + p.pending + own)
            && r.pending == [] && r.applied == p.applied + own
          else
            r.connection == p.connection && r.pending == p.pending && r.applied == p.applied)
  {
    var d := p.task.signal.description.value;
    var q := Step(p, Installed(valid, rejected));
    if valid && (d.Offer? || p.connection.signaling.HaveLocalOffer?) {
      assert q.task.Answering? <==> d.Offer?;
    }
  }

  /** An offer that could not be made leaves the peer ready for the next `negotiationneeded`. */
  lemma FailedOffersMayBeRetried(p: PeerState)
    requires Coherent(p) && Enabled(p, OfferFailed) && p.task.Idle?
    ensures MayNegotiate(Step(p, OfferFailed)) && Step(p, OfferFailed).connection == p.connection
  {
  }

  // ---- Signals as the mesh sends them carry one part each -----------------------------------------

  predicate OnePart(s: Signal) {
    s.description.None? || s.candidate.None?
  }

  /** The candidates of the candidate-only signals, in order. */
  function CandidatesOf(signals: seq<Signal>): seq<Candidate> {
    if signals == [] then []
    else
      var last := signals[|signals| - 1];
      CandidatesOf(signals[..|signals| - 1])
      + if last.description.None? && last.candidate.Some? then [last.candidate.value] else []
  }

  ghost predicate Collects(p: PeerState) {
    && (forall s <- p.queue :: OnePart(s))
    && (p.task.Installing? ==> p.task.signal.description.Some? && p.task.signal.candidate.None?)
    && (p.task.Answering? ==> p.task.candidate.None?)
    && p.applied == CandidatesOf(p.started)
  }

  lemma CandidatesAppend(signals: seq<Signal>, x: Signal)
    ensures CandidatesOf(signals + [x]) ==
      CandidatesOf(signals) + if x.description.None? && x.candidate.Some? then [x.candidate.value] else []
  {
    assert (signals + [x])[..|signals|] == signals;
  }

  lemma StartCollects(p: PeerState, polite: bool)
    requires p.task.Idle? && p.queue != [] && Collects(p)
    ensures Collects(StartNext(p, polite))
  {
    SignalsAfterStart(p, polite);
    CandidatesAppend(p.started, p.queue[0]);
    assert OnePart(p.queue[0]);
  }

  lemma StepCollects(p: PeerState, e: Event)
    requires Enabled(p, e) && Collects(p)
    requires e.Received? ==> OnePart(e.signal)
    ensures Collects(Step(p, e))
  {
    match e
    case Received(_) =>
    case Started(polite) => StartCollects(p, polite);
    case _ => SignalsAfter(p, e);
  }

  /**
   * After any run of one-part signals, every candidate taken up is with the browser or in the buffer,
   * exactly as often as it came, whatever descriptions and candidates the browser refused.
   */
  lemma {:induction false} CandidatesAreConserved(p: PeerState, es: seq<Event>)
    requires Runs(p, es) && Collects(p) && Conserves(p)
    requires forall e <- es :: e.Received? ==> OnePart(e.signal)
    ensures var q := After(p, es);
      && Collects(q) && Conserves(q)
      && multiset(CandidatesOf(q.started)) == multiset(q.connection.handed) + multiset(q.pending)
    decreases |es|
  {
    if es != [] {
      assert es[0] in es;
      StepConserves(p, es[0]);
      StepCollects(p, es[0]);
      CandidatesAreConserved(Step(p, es[0]), es[1..]);
    }
  }

  // ---- The peer record as the source updates it ---------------------------------------------------

  class Peer {
    var connection: Connection
    var makingOffer: bool
    var ignoreOffer: bool
    var isSettingRemoteAnswerPending: bool
    var pendingCandidates: seq<Candidate>
    var signalQueue: seq<Signal>
    var task: Task
    ghost var received: seq<Signal>
    ghost var started: seq<Signal>
    ghost var applied: seq<Candidate>

    ghost function State(): PeerState
      reads this
    {
      PeerState(connection, makingOffer, ignoreOffer, isSettingRemoteAnswerPending, pendingCandidates, task,
                signalQueue, received, started, applied)
    }

    /** ensurePeer */
    constructor ()
      ensures State() == FreshPeer
    {
      connection := Connection(Stable, false, None, []);
      makingOffer, ignoreOffer, isSettingRemoteAnswerPending := false, false, false;
      pendingCandidates, signalQueue, task := [], [], Idle;
      received, started, applied := [], [], [];
    }

    /** onnegotiationneeded, up to its await. */
    method OnNegotiationNeeded()
      requires MayNegotiate(State())
      modifies this
      ensures State() == Negotiate(old(State()))
    {
      makingOffer := true;
    }

    /** onnegotiationneeded, after its await. */
    method FinishOffer(nextId: nat) returns (signal: Signal)
      requires makingOffer
      modifies this
      ensures State() == SendOffer(old(State()), nextId)
      ensures signal == Signal(Some(LocalDescription(old(connection), nextId)), None)
    {
      signal := SetLocalDescription(nextId);
      makingOffer := false;
    }

    /** onnegotiationneeded, when what it awaits fails. */
    method GiveUpOffer()
      modifies this
      ensures State() == AbandonOffer(old(State()))
    {
      makingOffer := false;
    }

    method SetLocalDescription(nextId: nat) returns (signal: Signal)
      modifies this`connection
      ensures connection == SetLocal(old(connection), nextId)
      ensures signal == Signal(Some(LocalDescription(old(connection), nextId)), None)
    {
      signal := Signal(Some(LocalDescription(connection, nextId)), None);
      connection := SetLocal(connection, nextId);
    }

    method ReceiveSignal(signal: Signal)
      modifies this
      ensures State() == Receive(old(State()), signal)
    {
      signalQueue := signalQueue + [signal];
      received := received + [signal];
    }

    /** applySignal for the head of the queue, up to its first await. */
    method ApplySignal(polite: bool)
      requires task.Idle? && signalQueue != []
      modifies this
      ensures State() == StartNext(old(State()), polite)
    {
      var signal := signalQueue[0];
      signalQueue := signalQueue[1..];
      started := started + [signal];
      if signal.description.Some? {
        var isOffer := signal.description.value.Offer?;
        var readyForOffer := !makingOffer && (connection.signaling.Stable? || isSettingRemoteAnswerPending);
        var offerCollision := isOffer && !readyForOffer;
        ignoreOffer := !polite && offerCollision;
        if ignoreOffer { return; }
        isSettingRemoteAnswerPending := !isOffer;
        task := Installing(signal);
      } else {
        TakeCandidate(signal.candidate);
      }
    }

    method TakeCandidate(candidate: Option<Candidate>)
      modifies this
      ensures State() == ApplyCandidate(old(State()), candidate)
    {
      task := Idle;
      if candidate.None? { return; }
      applied := applied + [candidate.value];
      if !connection.hasRemote {
        if ignoreOffer {
          connection := connection.(handed := connection.handed + [candidate.value]);
        } else {
          pendingCandidates := pendingCandidates + [candidate.value];
        }
        return;
      }
      connection := connection.(handed := connection.handed + [candidate.value]);
    }

    /** applySignal after setRemoteDescription settles, with the loop that empties the buffer. */
    method FinishInstall(valid: bool, rejected: set<Candidate>)
      requires task.Installing? && task.signal.description.Some?
      modifies this
      ensures State() == Install(old(State()), valid, rejected)
      ensures valid && AcceptsRemote(old(connection), old(task).signal.description.value) ==>
        && old(connection.handed) + old(pendingCandidates) <= connection.handed
        && pendingCandidates == []
    {
      var signal := task.signal;
      var description := signal.description.value;
      isSettingRemoteAnswerPending := false;
      if !valid || !AcceptsRemote(connection, description) {
        task := Idle;
        return;
      }
      connection := SetRemote(connection, description);
      var buffered, failed := pendingCandidates, false;
      pendingCandidates := [];
      for i := 0 to |buffered|
        invariant connection ==
          SetRemote(old(connection), description).(handed := old(connection.handed) + buffered[..i])
        invariant failed <==> exists x :: x in buffered[..i] && x in rejected
        invariant State() == old(State()).(connection := connection, answerPending := false, pending := [])
      {
        assert buffered[..i + 1] == buffered[..i] + [buffered[i]];
        connection := connection.(handed := connection.handed + [buffered[i]]);
        if buffered[i] in rejected { failed := true; }
      }
      assert buffered[..|buffered|] == buffered;
      if description.Offer? {
        task := Answering(failed, signal.candidate);
      } else if failed {
        task := Idle;
      } else {
        TakeCandidate(signal.candidate);
      }
    }

    /** applySignal after the answering setLocalDescription. */
    method FinishAnswer(nextId: nat) returns (signal: Signal)
      requires task.Answering?
      modifies this
      ensures State() == SendAnswer(old(State()), nextId)
      ensures signal == Signal(Some(LocalDescription(old(connection), nextId)), None)
    {
      signal := SetLocalDescription(nextId);
      if task.failed {
        task := Idle;
      } else {
        TakeCandidate(task.candidate);
      }
    }
  }
}
