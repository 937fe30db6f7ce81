/**
 * Two peers negotiating over ordered signalling (peer-mesh.ts, sections 3.2 and 4.1.10.2 of RFC 8829).
 *
 * A signal travels from the sender straight to the end of the receiver's `signalQueue`: the relay and
 * the queue are both first-in first-out and a signal is taken up at an arbitrary later time, so the queue
 * also stands for everything still on the wire. `low` has the smaller connection id and is impolite.
 */
module Negotiation {
  import opened Options
  import opened PeerLink
  import opened ConnectionIds

  datatype System = System(lowId: ConnectionId, highId: ConnectionId, low: PeerState, high: PeerState, nextId: nat)

  datatype Side = Low | High

  /** `Trickle` sends a candidate or media metadata; `Begin` is a new `negotiationneeded`. */
  datatype Action =
    | Begin
    | Offering
    | Trickle(signal: Signal)
    | Take
    | Settle(rejected: set<Candidate>)
    | Reply

  datatype Move = Move(side: Side, action: Action)

  function Actor(s: System, side: Side): PeerState {
    if side.Low? then s.low else s.high
  }

  /** Evaluated when a signal is applied, as isPolite does. */
  predicate Polite(s: System, side: Side) {
    if side.Low? then IsPolite(s.lowId, s.highId) else IsPolite(s.highId, s.lowId)
  }

  function EventOf(s: System, m: Move): PeerLink.Event
    requires !m.action.Trickle?
  {
    match m.action
    case Begin => Negotiating
    case Offering => OfferSent(s.nextId)
    case Take => Started(Polite(s, m.side))
    case Settle(rejected) => Installed(true, rejected)
    case Reply => Answered(s.nextId)
  }

  predicate Possible(s: System, m: Move) {
    match m.action
    case Trickle(signal) => signal.description.None?
    case _ => Enabled(Actor(s, m.side), EventOf(s, m))
  }

  /** What the move sends to the other side, if anything. */
  function Outgoing(s: System, m: Move): Option<Signal> {
    match m.action
    case Offering => Some(Signal(Some(LocalDescription(Actor(s, m.side).connection, s.nextId)), None))
    case Reply => Some(Signal(Some(LocalDescription(Actor(s, m.side).connection, s.nextId)), None))
    case Trickle(signal) => Some(signal)
    case _ => None
  }

  function Sent(p: PeerState, signal: Option<Signal>): PeerState {
    if signal.None? then p else Receive(p, signal.value)
  }

  function Next(s: System, m: Move): System
    requires Possible(s, m)
  {
    var actor := if m.action.Trickle? then Actor(s, m.side) else PeerLink.Step(Actor(s, m.side), EventOf(s, m));
    var out := Outgoing(s, m);
    var nextId := s.nextId + if m.action.Offering? then 1 else 0;
    if m.side.Low? then
      s.(low := actor, high := Sent(s.high, out), nextId := nextId)
    else
      s.(high := actor, low := Sent(s.low, out), nextId := nextId)
  }

  ghost predicate Run(s: System, ms: seq<Move>)
    decreases |ms|
  {
    ms == [] || (Possible(s, ms[0]) && Run(Next(s, ms[0]), ms[1..]))
  }

  ghost function Result(s: System, ms: seq<Move>): System
    requires Run(s, ms)
    decreases |ms|
  {
    if ms == [] then s else Result(Next(s, ms[0]), ms[1..])
  }

  predicate Initial(s: System) {
    Less(s.lowId, s.highId) && s.low == FreshPeer && s.high == FreshPeer
  }

  // ---- The invariant ------------------------------------------------------------------------------

  /** The descriptions among signals, in order. */
  function Descriptions(signals: seq<Signal>): seq<Description> {
    if signals == [] then []
    else (if signals[0].description.Some? then [signals[0].description.value] else []) + Descriptions(signals[1..])
  }

  /** Every description on its way to a peer, the one being installed first. */
  function Incoming(p: PeerState): seq<Description> {
    (if p.task.Installing? && p.task.signal.description.Some? then [p.task.signal.description.value] else [])
    + Descriptions(p.queue)
  }

  /** What the invariant needs to know about one side. */
  datatype View = View(signaling: Signaling, agreed: Option<nat>, offering: bool, incoming: seq<Description>)

  function ViewOf(p: PeerState): View {
    View(p.connection.signaling, p.connection.agreed, p.makingOffer, Incoming(p))
  }

  predicate AtMostOneOffer(ds: seq<Description>) {
    ds == [] || (|ds| == 1 && ds[0].Offer?)
  }

  /** Nobody waits: nothing is under way and both sides hold the same last exchange. */
  predicate Quiet(l: View, h: View) {
    l.signaling.Stable? && h.signaling.Stable? && l.incoming == [] && h.incoming == [] && l.agreed == h.agreed
  }

  /** Only the polite side waits, for low to take up its offer, answer it, or collide with it. */
  predicate HighWaits(l: View, h: View) {
    h.signaling.HaveLocalOffer? &&
    var o := h.signaling.id;
    || (l.signaling.Stable? && h.incoming == [] && l.incoming == [Offer(o)] && l.agreed == h.agreed)
    || (l.signaling.Stable? && h.incoming == [Answer(o)] && l.incoming == [] && l.agreed == Some(o))
    || (l.signaling.Stable? && l.offering && h.incoming == [] && l.incoming == [] && l.agreed == h.agreed)
    || (l.signaling == HaveRemoteOffer(o) && h.incoming == [] && l.incoming == [] && l.agreed == h.agreed)
  }

  /** Low waits and its offer has not been installed yet. */
  predicate LowOfferOnItsWay(l: View, h: View) {
    l.signaling.HaveLocalOffer? &&
    var o := l.signaling.id;
    || (h.signaling.Stable? && h.incoming == [Offer(o)] && l.incoming == [] && l.agreed == h.agreed)
    || (h.signaling.HaveLocalOffer? && h.incoming == [Offer(o)] && l.agreed == h.agreed
        && (l.incoming == [] || l.incoming == [Offer(h.signaling.id)]))
    || (h.signaling.HaveLocalOffer? && h.incoming == [Answer(h.signaling.id), Offer(o)]
        && l.incoming == [] && l.agreed == Some(h.signaling.id))
  }

  /** What reaches low once high has answered its offer `o`: the answer, and high's next offer if there is one. */
  function AnswerAndNext(o: nat, high: Signaling): seq<Description> {
    if high.HaveLocalOffer? then [Answer(o), Offer(high.id)] else [Answer(o)]
  }

  /** Low waits and high has installed its offer; an offer high gave up may still be ahead of the answer. */
  predicate LowOfferTaken(l: View, h: View) {
    l.signaling.HaveLocalOffer? && h.incoming == [] &&
    var o := l.signaling.id;
    || (h.signaling == HaveRemoteOffer(o) && AtMostOneOffer(l.incoming) && l.agreed == h.agreed)
    || (!h.signaling.HaveRemoteOffer? && h.agreed == Some(o)
        && (l.incoming == AnswerAndNext(o, h.signaling)
            || (l.incoming != [] && l.incoming[0].Offer? && l.incoming[1..] == AnswerAndNext(o, h.signaling))))
  }

  predicate Phase(l: View, h: View) {
    Quiet(l, h) || HighWaits(l, h) || LowOfferOnItsWay(l, h) || LowOfferTaken(l, h)
  }

  ghost predicate Inv(s: System) {
    && Less(s.lowId, s.highId)
    && Coherent(s.low) && Coherent(s.high)
    && !s.high.ignoreOffer
    && (s.low.task.Installing? && s.low.task.signal.description.value.Offer? ==>
          s.low.connection.signaling.Stable? && !s.low.makingOffer)
    && Phase(ViewOf(s.low), ViewOf(s.high))
  }

  lemma {:induction false} DescriptionsAppend(signals: seq<Signal>, x: Signal)
    ensures Descriptions(signals + [x]) ==
      Descriptions(signals) + if x.description.Some? then [x.description.value] else []
  {
    if signals != [] {
      assert (signals + [x])[1..] == signals[1..] + [x];
      DescriptionsAppend(signals[1..], x);
    }
  }

  lemma ViewAfterReceive(p: PeerState, x: Signal)
    ensures ViewOf(Receive(p, x)) ==
      ViewOf(p).(incoming := Incoming(p) + if x.description.Some? then [x.description.value] else [])
  {
    DescriptionsAppend(p.queue, x);
  }

  /** Taking up a signal keeps it among the incoming ones exactly when it is neither ignored nor a candidate. */
  lemma ViewAfterTake(p: PeerState, polite: bool)
    requires p.task.Idle? && p.queue != []
    ensures var d := p.queue[0].description; var q := StartNext(p, polite);
      && (d.None? ==> ViewOf(q) == ViewOf(p) && q.task.Idle? && q.ignoreOffer == p.ignoreOffer)
      && (d.Some? ==> Incoming(p) != [] && Incoming(p)[0] == d.value)
      && (d.Some? && (polite || !Collides(p, d.value)) ==>
            ViewOf(q) == ViewOf(p) && !q.ignoreOffer && q.task == Installing(p.queue[0]))
      && (d.Some? && !polite && Collides(p, d.value) ==>
            ViewOf(q) == ViewOf(p).(incoming := Incoming(p)[1..]) && q.task.Idle?)
  {
  }

  lemma ViewAfterSettle(p: PeerState, rejected: set<Candidate>)
    requires Enabled(p, Installed(true, rejected))
    ensures var d := p.task.signal.description.value; var q := Install(p, true, rejected);
      && Incoming(p) != [] && Incoming(p)[0] == d
      && q.ignoreOffer == p.ignoreOffer && !q.task.Installing?
      && (d.Offer? ==>
            ViewOf(q) == View(HaveRemoteOffer(d.id), p.connection.agreed, false, Incoming(p)[1..]))
      && (d.Answer? && p.connection.signaling.HaveLocalOffer? ==>
            ViewOf(q) == View(Stable, Some(d.id), false, Incoming(p)[1..]))
  {
  }

  lemma ViewAfterCandidate(p: PeerState, candidate: Option<Candidate>)
    requires !p.task.Installing?
    ensures var q := ApplyCandidate(p, candidate);
      ViewOf(q) == ViewOf(p) && q.ignoreOffer == p.ignoreOffer && q.task.Idle?
  {
  }

  lemma ViewAfterReply(p: PeerState, nextId: nat)
    requires p.task.Answering? && p.connection.signaling.HaveRemoteOffer?
    ensures var q := SendAnswer(p, nextId);
      && ViewOf(q) == ViewOf(p).(signaling := Stable, agreed := Some(p.connection.signaling.id))
      && q.ignoreOffer == p.ignoreOffer && q.task.Idle?
  {
    ViewAfterCandidate(p.(connection := SetLocal(p.connection, nextId)), p.task.candidate);
  }

  lemma ViewAfterOffering(p: PeerState, nextId: nat)
    requires p.makingOffer && p.connection.signaling.Stable?
    ensures var q := SendOffer(p, nextId);
      && ViewOf(q) == ViewOf(p).(signaling := HaveLocalOffer(nextId), offering := false)
      && q.ignoreOffer == p.ignoreOffer && q.task == p.task
  {
  }

  // ---- Each move keeps the invariant --------------------------------------------------------------

  lemma BeginKeeps(s: System, side: Side)
    requires Inv(s) && Possible(s, Move(side, Begin))
    ensures Inv(Next(s, Move(side, Begin)))
  {
    StepKeepsCoherence(Actor(s, side), Negotiating);
  }

  lemma OfferingKeeps(s: System, side: Side)
    requires Inv(s) && Possible(s, Move(side, Offering))
    ensures Inv(Next(s, Move(side, Offering)))
  {
    var m := Move(side, Offering);
    StepKeepsCoherence(Actor(s, side), OfferSent(s.nextId));
    ViewAfterOffering(Actor(s, side), s.nextId);
    ViewAfterReceive(if side.Low? then s.high else s.low, Outgoing(s, m).value);
  }

  lemma TrickleKeeps(s: System, side: Side, signal: Signal)
    requires Inv(s) && signal.description.None?
    ensures Inv(Next(s, Move(side, Trickle(signal))))
  {
    ViewAfterReceive(if side.Low? then s.high else s.low, signal);
    var s' := Next(s, Move(side, Trickle(signal)));
    assert ViewOf(s'.low) == ViewOf(s.low) && ViewOf(s'.high) == ViewOf(s.high);
  }

  lemma TakeKeeps(s: System, side: Side)
    requires Inv(s) && Possible(s, Move(side, Take))
    ensures Inv(Next(s, Move(side, Take)))
  {
    OrderIsTotal(s.lowId, s.highId);
    var p, polite := Actor(s, side), Polite(s, side);
    StepKeepsCoherence(p, Started(polite));
    ViewAfterTake(p, polite);
  }

  lemma SettleKeeps(s: System, side: Side, rejected: set<Candidate>)
    requires Inv(s) && Possible(s, Move(side, Settle(rejected)))
    ensures Inv(Next(s, Move(side, Settle(rejected))))
  {
    var p := Actor(s, side);
    StepKeepsCoherence(p, Installed(true, rejected));
    ViewAfterSettle(p, rejected);
  }

  lemma ReplyKeeps(s: System, side: Side)
    requires Inv(s) && Possible(s, Move(side, Reply))
    ensures Inv(Next(s, Move(side, Reply)))
  {
    var p := Actor(s, side);
    StepKeepsCoherence(p, Answered(s.nextId));
    ViewAfterReply(p, s.nextId);
    ViewAfterReceive(if side.Low? then s.high else s.low, Outgoing(s, Move(side, Reply)).value);
  }

  lemma NextKeeps(s: System, m: Move)
    requires Inv(s) && Possible(s, m)
    ensures Inv(Next(s, m))
  {
    match m.action
    case Begin => BeginKeeps(s, m.side);
    case Offering => OfferingKeeps(s, m.side);
    case Trickle(signal) => TrickleKeeps(s, m.side, signal);
    case Take => TakeKeeps(s, m.side);
    case Settle(rejected) => SettleKeeps(s, m.side, rejected);
    case Reply => ReplyKeeps(s, m.side);
  }

  lemma {:induction false} RunKeeps(s: System, ms: seq<Move>)
    requires Inv(s) && Run(s, ms)
    ensures Inv(Result(s, ms))
    decreases |ms|
  {
    if ms != [] {
      NextKeeps(s, ms[0]);
      RunKeeps(Next(s, ms[0]), ms[1..]);
    }
  }

  lemma ReachableKeeps(s: System, ms: seq<Move>)
    requires Initial(s) && Run(s, ms)
    ensures Inv(Result(s, ms))
  {
    RunKeeps(s, ms);
  }

  // ---- Safety over every run ----------------------------------------------------------------------

  function Other(s: System, side: Side): PeerState {
    if side.Low? then s.high else s.low
  }

  predicate NextAnswerFits(v: View) {
    v.incoming != [] && v.incoming[0].Answer? ==> v.signaling == HaveLocalOffer(v.incoming[0].id)
  }

  lemma AnswersFitInPhase(l: View, h: View)
    requires Phase(l, h)
    ensures NextAnswerFits(l) && NextAnswerFits(h)
  {
  }

  lemma AnswersMeetTheirOfferIn(s: System, side: Side)
    requires Inv(s)
    ensures var p := Actor(s, side);
      && NextAnswerFits(ViewOf(p))
      && (p.task.Installing? ==> AcceptsRemote(p.connection, p.task.signal.description.value))
  {
    var p := Actor(s, side);
    AnswersFitInPhase(ViewOf(s.low), ViewOf(s.high));
    if p.task.Installing? {
      assert ViewOf(p).incoming[0] == p.task.signal.description.value;
    }
  }

  /** An answer is only ever taken up by the peer holding exactly the offer it answers, so none is refused. */
  lemma AnswersMeetTheirOffer(s0: System, ms: seq<Move>, side: Side)
    requires Initial(s0) && Run(s0, ms)
    ensures var p := Actor(Result(s0, ms), side);
      && (p.task.Installing? ==> p.task.signal.description.Some?
                                 && AcceptsRemote(p.connection, p.task.signal.description.value))
      && (Incoming(p) != [] && Incoming(p)[0].Answer? ==>
            p.connection.signaling == HaveLocalOffer(Incoming(p)[0].id))
  {
    ReachableKeeps(s0, ms);
    AnswersMeetTheirOfferIn(Result(s0, ms), side);
  }

  /** The polite side never ignores an offer; the impolite side ignores one exactly when it collides. */
  lemma OnlyTheImpoliteSideIgnores(s0: System, ms: seq<Move>, side: Side)
    requires Initial(s0) && Run(s0, ms)
    ensures var s := Result(s0, ms); var m := Move(side, Take);
      && !s.high.ignoreOffer
      && (Possible(s, m) && Actor(s, side).queue[0].description.Some? ==>
            (Actor(Next(s, m), side).ignoreOffer <==>
               side.Low? && Collides(s.low, s.low.queue[0].description.value)))
  {
    ReachableKeeps(s0, ms);
    OrderIsTotal(s0.lowId, s0.highId);
    var s := Result(s0, ms);
    OrderIsTotal(s.lowId, s.highId);
  }

  /**
   * `p` waits for an answer to its offer `o`: the answer is under way, or the other side is answering, or
   * the offer is under way and will be taken up. A polite peer may instead be about to lose its offer to a
   * colliding one that is being made or is under way.
   */
  predicate Covered(p: View, q: View, polite: bool) {
    p.signaling.HaveLocalOffer? &&
    var o := p.signaling.id;
    || Answer(o) in p.incoming
    || q.signaling == HaveRemoteOffer(o)
    || (Offer(o) in q.incoming
        && (!polite || q.signaling.Stable?
            || (q.signaling.HaveLocalOffer? && Answer(q.signaling.id) in q.incoming)))
    || (polite && q.offering)
    || (polite && q.signaling.HaveLocalOffer? && Offer(q.signaling.id) in p.incoming)
  }

  lemma PhaseCovers(l: View, h: View)
    requires Phase(l, h)
    ensures l.signaling.HaveLocalOffer? ==> Covered(l, h, false)
    ensures h.signaling.HaveLocalOffer? ==> Covered(h, l, true)
  {
    assert l.incoming != [] ==> forall d <- l.incoming[1..] :: d in l.incoming;
  }

  /** A peer in have-local-offer is never forgotten. */
  lemma LocalOffersAreCovered(s0: System, ms: seq<Move>, side: Side)
    requires Initial(s0) && Run(s0, ms)
    requires Actor(Result(s0, ms), side).connection.signaling.HaveLocalOffer?
    ensures Covered(ViewOf(Actor(Result(s0, ms), side)), ViewOf(Other(Result(s0, ms), side)), side.High?)
  {
    ReachableKeeps(s0, ms);
    PhaseCovers(ViewOf(Result(s0, ms).low), ViewOf(Result(s0, ms).high));
  }

  /** Every offer still held or under way was numbered since `first`, and all of them before `nextId`. */
  predicate Numbered(v: View, first: nat, nextId: nat) {
    && (!v.signaling.Stable? ==> first <= v.signaling.id < nextId)
    && (v.agreed.Some? ==> v.agreed.value < nextId)
    && (forall d <- v.incoming :: first <= d.id < nextId)
  }

  ghost predicate AllNumbered(s: System, first: nat) {
    first <= s.nextId && Numbered(ViewOf(s.low), first, s.nextId) && Numbered(ViewOf(s.high), first, s.nextId)
  }

  lemma ReceiveNumbers(p: PeerState, x: Option<Signal>, first: nat, nextId: nat)
    requires Numbered(ViewOf(p), first, nextId)
    requires x.Some? && x.value.description.Some? ==> first <= x.value.description.value.id < nextId
    ensures Numbered(ViewOf(Sent(p, x)), first, nextId)
  {
    if x.Some? { ViewAfterReceive(p, x.value); }
  }

  lemma StepNumbers(p: PeerState, e: PeerLink.Event, first: nat, nextId: nat)
    requires Coherent(p) && Enabled(p, e) && Numbered(ViewOf(p), first, nextId)
    requires e.Installed? ==> e.valid && AcceptsRemote(p.connection, p.task.signal.description.value)
    requires e.OfferSent? ==> first <= e.nextId < nextId
    requires !e.Received?
    ensures Numbered(ViewOf(PeerLink.Step(p, e)), first, nextId)
  {
    match e
    case Started(polite) => ViewAfterTake(p, polite);
    case Installed(_, rejected) =>
      ViewAfterSettle(p, rejected);
      assert Incoming(p)[0] in Incoming(p);
    case Answered(n) => ViewAfterReply(p, n);
    case _ =>
  }

  lemma OutgoingIsNumbered(s: System, m: Move, first: nat)
    requires Coherent(Actor(s, m.side)) && Possible(s, m)
    requires first <= s.nextId && Numbered(ViewOf(Actor(s, m.side)), first, s.nextId)
    ensures var x := Outgoing(s, m);
      x.Some? && x.value.description.Some? ==> first <= x.value.description.value.id < Next(s, m).nextId
  {
  }

  lemma NumberedLater(v: View, first: nat, nextId: nat, later: nat)
    requires Numbered(v, first, nextId) && nextId <= later
    ensures Numbered(v, first, later)
  {
  }

  lemma ActorNumbers(s: System, m: Move, first: nat)
    requires Inv(s) && Possible(s, m) && AllNumbered(s, first)
    ensures Numbered(ViewOf(Actor(Next(s, m), m.side)), first, Next(s, m).nextId)
  {
    var nextId := Next(s, m).nextId;
    NumberedLater(ViewOf(Actor(s, m.side)), first, s.nextId, nextId);
    if !m.action.Trickle? {
      AnswersMeetTheirOfferIn(s, m.side);
      StepNumbers(Actor(s, m.side), EventOf(s, m), first, nextId);
    }
  }

  lemma OtherNumbers(s: System, m: Move, first: nat)
    requires Inv(s) && Possible(s, m) && AllNumbered(s, first)
    ensures Numbered(ViewOf(Other(Next(s, m), m.side)), first, Next(s, m).nextId)
  {
    var nextId := Next(s, m).nextId;
    NumberedLater(ViewOf(Other(s, m.side)), first, s.nextId, nextId);
    OutgoingIsNumbered(s, m, first);
    ReceiveNumbers(Other(s, m.side), Outgoing(s, m), first, nextId);
  }

  lemma NextNumbers(s: System, m: Move, first: nat)
    requires Inv(s) && Possible(s, m) && AllNumbered(s, first)
    ensures AllNumbered(Next(s, m), first)
  {
    ActorNumbers(s, m, first);
    OtherNumbers(s, m, first);
  }

  lemma {:induction false} RunNumbers(s: System, ms: seq<Move>, first: nat)
    requires Inv(s) && AllNumbered(s, first) && Run(s, ms)
    ensures AllNumbered(Result(s, ms), first)
    decreases |ms|
  {
    if ms != [] {
      NextKeeps(s, ms[0]);
      NextNumbers(s, ms[0], first);
      RunNumbers(Next(s, ms[0]), ms[1..], first);
    }
  }

  /** A number names one offer: a new one differs from everything made, answered or under way before. */
  lemma OffersAreDistinct(s0: System, ms: seq<Move>, side: Side)
    requires Initial(s0) && Run(s0, ms)
    ensures var s := Result(s0, ms); var p := Actor(s, side);
      && Offer(s.nextId) !in Incoming(p) && Answer(s.nextId) !in Incoming(p)
      && p.connection.signaling != HaveLocalOffer(s.nextId)
      && p.connection.signaling != HaveRemoteOffer(s.nextId)
      && p.connection.agreed != Some(s.nextId)
  {
    RunNumbers(s0, ms, s0.nextId);
  }

  // ---- Every run drains ---------------------------------------------------------------------------

  /** The moves that carry on a negotiation; the others start one or only trickle. */
  predicate CarriesOn(m: Move) {
    !m.action.Begin? && !m.action.Trickle?
  }

  function SignalWeight(x: Signal): nat {
    match x.description
    case None => 1
    case Some(Offer(_)) => 6
    case Some(Answer(_)) => 3
  }

  function QueueWeight(signals: seq<Signal>): nat {
    if signals == [] then 0 else SignalWeight(signals[0]) + QueueWeight(signals[1..])
  }

  function TaskWeight(task: Task): nat {
    match task
    case Idle => 0
    case Installing(signal) => SignalWeight(signal) - 1
    case Answering(_, _) => 4
  }

  function Weight(p: PeerState): nat {
    (if p.makingOffer then 7 else 0) + TaskWeight(p.task) + QueueWeight(p.queue)
  }

  function Measure(s: System): nat {
    Weight(s.low) + Weight(s.high)
  }

  lemma {:induction false} QueueWeightAppend(signals: seq<Signal>, x: Signal)
    ensures QueueWeight(signals + [x]) == QueueWeight(signals) + SignalWeight(x)
  {
    if signals != [] {
      assert (signals + [x])[1..] == signals[1..] + [x];
      QueueWeightAppend(signals[1..], x);
    }
  }

  lemma TakeDecreases(p: PeerState, polite: bool)
    requires p.task.Idle? && p.queue != []
    ensures Weight(StartNext(p, polite)) < Weight(p)
  {
    var q := StartNext(p, polite);
    assert q.queue == p.queue[1..] && q.makingOffer == p.makingOffer;
    assert TaskWeight(q.task) < SignalWeight(p.queue[0]);
  }

  lemma SettleDecreases(p: PeerState, rejected: set<Candidate>)
    requires Enabled(p, Installed(true, rejected))
    requires AcceptsRemote(p.connection, p.task.signal.description.value)
    ensures Weight(Install(p, true, rejected)) < Weight(p)
  {
    var q := Install(p, true, rejected);
    assert q.queue == p.queue && q.makingOffer == p.makingOffer;
    assert TaskWeight(q.task) < TaskWeight(p.task);
  }

  lemma ReceiveWeighs(p: PeerState, x: Signal)
    ensures Weight(Receive(p, x)) == Weight(p) + SignalWeight(x)
  {
    QueueWeightAppend(p.queue, x);
  }

  lemma OfferingDecreases(s: System, side: Side)
    requires Inv(s) && Possible(s, Move(side, Offering))
    ensures Measure(Next(s, Move(side, Offering))) < Measure(s)
  {
    ReceiveWeighs(Other(s, side), Outgoing(s, Move(side, Offering)).value);
    assert Weight(SendOffer(Actor(s, side), s.nextId)) + 7 == Weight(Actor(s, side));
  }

  lemma ReplyDecreases(s: System, side: Side)
    requires Inv(s) && Possible(s, Move(side, Reply))
    ensures Measure(Next(s, Move(side, Reply))) < Measure(s)
  {
    var p := Actor(s, side);
    ReceiveWeighs(Other(s, side), Outgoing(s, Move(side, Reply)).value);
    ReplyWeighs(p, s.nextId);
  }

  lemma ReplyWeighs(p: PeerState, nextId: nat)
    requires p.task.Answering? && p.connection.signaling.HaveRemoteOffer?
    ensures Weight(SendAnswer(p, nextId)) + 4 == Weight(p)
  {
    ViewAfterReply(p, nextId);
    SignalsAfter(p, Answered(nextId));
  }

  lemma TakeLowers(s: System, side: Side)
    requires Possible(s, Move(side, Take))
    ensures Measure(Next(s, Move(side, Take))) < Measure(s)
  {
    TakeDecreases(Actor(s, side), Polite(s, side));
  }

  lemma SettleLowers(s: System, side: Side, rejected: set<Candidate>)
    requires Inv(s) && Possible(s, Move(side, Settle(rejected)))
    ensures Measure(Next(s, Move(side, Settle(rejected)))) < Measure(s)
  {
    AnswersMeetTheirOfferIn(s, side);
    SettleDecreases(Actor(s, side), rejected);
  }

  lemma MeasureDecreases(s: System, m: Move)
    requires Inv(s) && Possible(s, m) && CarriesOn(m)
    ensures Measure(Next(s, m)) < Measure(s)
  {
    match m.action
    case Take => TakeLowers(s, m.side);
    case Settle(rejected) => SettleLowers(s, m.side, rejected);
    case Offering => OfferingDecreases(s, m.side);
    case Reply => ReplyDecreases(s, m.side);
  }

  /** A candidate or media metadata weighs as much as taking it up takes away. */
  lemma TrickleWeighsOne(s: System, side: Side, signal: Signal)
    requires signal.description.None?
    ensures Measure(Next(s, Move(side, Trickle(signal)))) == Measure(s) + 1
  {
    ReceiveWeighs(Other(s, side), signal);
  }

  function Trickles(ms: seq<Move>): nat {
    if ms == [] then 0 else (if ms[0].action.Trickle? then 1 else 0) + Trickles(ms[1..])
  }

  /**
   * Without a new negotiation, whatever candidates and metadata are sent meanwhile: the moves that carry on
   * are no more than the measure at the start and the signals trickled.
   */
  lemma {:induction false} RunsAreBounded(s: System, ms: seq<Move>)
    requires Inv(s) && Run(s, ms)
    requires forall m <- ms :: !m.action.Begin?
    ensures |ms| - Trickles(ms) + Measure(Result(s, ms)) <= Measure(s) + Trickles(ms)
    decreases |ms|
  {
    if ms != [] {
      var m := ms[0];
      assert m in ms;
      NextKeeps(s, m);
      if m.action.Trickle? {
        TrickleWeighsOne(s, m.side, m.action.signal);
      } else {
        MeasureDecreases(s, m);
      }
      RunsAreBounded(Next(s, m), ms[1..]);
    }
  }

  /** Both sides stable on the same exchange, with nothing left to process. */
  predicate Settled(s: System) {
    && s.low.connection.signaling.Stable? && s.high.connection.signaling.Stable?
    && s.low.connection.agreed == s.high.connection.agreed
    && s.low.queue == [] && s.high.queue == []
    && !s.low.makingOffer && !s.high.makingOffer
    && s.low.task.Idle? && s.high.task.Idle?
  }

  predicate Busy(p: PeerState) {
    p.makingOffer || !p.task.Idle? || p.queue != []
  }

  lemma BusyPeersMove(s: System, side: Side) returns (m: Move)
    requires Inv(s) && Busy(Actor(s, side))
    ensures CarriesOn(m) && Possible(s, m)
  {
    var p := Actor(s, side);
    m := Move(side, if p.makingOffer then Offering
                    else if p.task.Installing? then Settle({})
                    else if p.task.Answering? then Reply
                    else Take);
  }

  lemma StuckMeansSettled(s: System)
    requires Inv(s)
    ensures Settled(s) <==> !exists m :: CarriesOn(m) && Possible(s, m)
  {
    if Busy(s.low) {
      var m := BusyPeersMove(s, Low);
    } else if Busy(s.high) {
      var m := BusyPeersMove(s, High);
    } else {
      assert Incoming(s.low) == [] && Incoming(s.high) == [];
      forall m | CarriesOn(m)
        ensures !Possible(s, m)
      {
        assert !Busy(Actor(s, m.side));
      }
    }
  }

  /**
   * From any state any run can reach, carrying on without a new negotiation stops: after at most `Measure`
   * moves, and one more for every candidate or metadata signal sent meanwhile.
   */
  lemma EveryNegotiationEnds(s0: System, ms: seq<Move>, rest: seq<Move>)
    requires Initial(s0) && Run(s0, ms) && Run(Result(s0, ms), rest)
    requires forall m <- rest :: !m.action.Begin?
    ensures |rest| - Trickles(rest) <= Measure(Result(s0, ms)) + Trickles(rest)
  {
    ReachableKeeps(s0, ms);
    RunsAreBounded(Result(s0, ms), rest);
  }

  /** Once an offer was made since `first`, a quiet pair agrees on one made since then. */
  ghost predicate AgreesSince(s: System, first: nat) {
    s.nextId > first && Quiet(ViewOf(s.low), ViewOf(s.high)) ==>
      s.low.connection.agreed.Some? && s.low.connection.agreed.value >= first
  }

  lemma TakeAgrees(s: System, side: Side, first: nat)
    requires Inv(s) && Possible(s, Move(side, Take)) && AgreesSince(s, first)
    ensures AgreesSince(Next(s, Move(side, Take)), first)
  {
    ViewAfterTake(Actor(s, side), Polite(s, side));
  }

  lemma SettleAgrees(s: System, side: Side, rejected: set<Candidate>, first: nat)
    requires Inv(s) && Possible(s, Move(side, Settle(rejected))) && AllNumbered(s, first) && AgreesSince(s, first)
    ensures AgreesSince(Next(s, Move(side, Settle(rejected))), first)
  {
    AnswersMeetTheirOfferIn(s, side);
    ViewAfterSettle(Actor(s, side), rejected);
  }

  lemma TrickleAgrees(s: System, side: Side, signal: Signal, first: nat)
    requires signal.description.None? && AgreesSince(s, first)
    ensures AgreesSince(Next(s, Move(side, Trickle(signal))), first)
  {
    ViewAfterReceive(Other(s, side), signal);
    var s' := Next(s, Move(side, Trickle(signal)));
    assert ViewOf(s'.low) == ViewOf(s.low) && ViewOf(s'.high) == ViewOf(s.high);
  }

  /** Whoever sends a description leaves it with the other side, so the pair is not quiet. */
  lemma SendersAreNotQuiet(s: System, m: Move)
    requires Possible(s, m) && (m.action.Offering? || m.action.Reply?)
    ensures !Quiet(ViewOf(Next(s, m).low), ViewOf(Next(s, m).high))
  {
    ViewAfterReceive(Other(s, m.side), Outgoing(s, m).value);
    assert Incoming(Other(Next(s, m), m.side)) != [];
  }

  lemma NextAgrees(s: System, m: Move, first: nat)
    requires Inv(s) && Possible(s, m) && AllNumbered(s, first) && AgreesSince(s, first)
    ensures AgreesSince(Next(s, m), first)
  {
    match m.action
    case Begin =>
    case Take => TakeAgrees(s, m.side, first);
    case Settle(rejected) => SettleAgrees(s, m.side, rejected, first);
    case Trickle(signal) => TrickleAgrees(s, m.side, signal, first);
    case _ => SendersAreNotQuiet(s, m);
  }

  lemma {:induction false} RunAgrees(s: System, ms: seq<Move>, first: nat)
    requires Inv(s) && AllNumbered(s, first) && AgreesSince(s, first) && Run(s, ms)
    ensures Inv(Result(s, ms)) && AllNumbered(Result(s, ms), first) && AgreesSince(Result(s, ms), first)
    decreases |ms|
  {
    if ms != [] {
      NextKeeps(s, ms[0]);
      NextNumbers(s, ms[0], first);
      NextAgrees(s, ms[0], first);
      RunAgrees(Next(s, ms[0]), ms[1..], first);
    }
  }

  /**
   * Wherever a run stops, both sides are stable on the same offer and answer with nothing left over; and
   * there is such an offer once one was made.
   */
  lemma EveryNegotiationSettles(s0: System, ms: seq<Move>)
    requires Initial(s0) && Run(s0, ms)
    ensures var s := Result(s0, ms);
      && (Settled(s) <==> !exists m :: CarriesOn(m) && Possible(s, m))
      && (Settled(s) && s.nextId > s0.nextId ==> s.low.connection.agreed.Some?)
  {
    ReachableKeeps(s0, ms);
    StuckMeansSettled(Result(s0, ms));
    RunAgrees(s0, ms, s0.nextId);
  }

  /**
   * Every later negotiation takes effect: if offers are made after the pair had settled, it settles again
   * only on one of those, never on the exchange it had before.
   */
  lemma EveryRenegotiationTakesEffect(s0: System, ms: seq<Move>, rest: seq<Move>)
    requires Initial(s0) && Run(s0, ms) && Settled(Result(s0, ms)) && Run(Result(s0, ms), rest)
    ensures var s := Result(s0, ms); var s' := Result(s, rest); var agreed := s'.low.connection.agreed;
      Settled(s') && s'.nextId > s.nextId ==>
        agreed == s'.high.connection.agreed && agreed.Some? && s.nextId <= agreed.value < s'.nextId
  {
    var s := Result(s0, ms);
    RunAgrees(s0, ms, s0.nextId);
    assert Incoming(s.low) == [] && Incoming(s.high) == [];
    RunAgrees(s, rest, s.nextId);
  }

  // ---- Every need is met --------------------------------------------------------------------------

  function Begins(ms: seq<Move>): nat {
    if ms == [] then 0 else (if ms[0].action.Begin? then 1 else 0) + Begins(ms[1..])
  }

  /** The offers made and those being made. */
  function Offers(s: System): nat {
    s.nextId + (if s.low.makingOffer then 1 else 0) + (if s.high.makingOffer then 1 else 0)
  }

  lemma FlagAfter(p: PeerState, e: PeerLink.Event)
    requires Enabled(p, e) && !e.OfferFailed?
    ensures PeerLink.Step(p, e).makingOffer == (e.Negotiating? || (p.makingOffer && !e.OfferSent?))
    ensures e.Negotiating? ==> !p.makingOffer
    ensures e.OfferSent? ==> p.makingOffer
  {
  }

  lemma OnlyBeginningStartsOffers(s: System, m: Move)
    requires Possible(s, m)
    ensures Offers(Next(s, m)) == Offers(s) + if m.action.Begin? then 1 else 0
  {
    var s', x := Next(s, m), Outgoing(s, m);
    assert Sent(Other(s, m.side), x).makingOffer == Other(s, m.side).makingOffer;
    assert Other(s', m.side).makingOffer == Other(s, m.side).makingOffer;
    if m.action.Trickle? {
      assert Actor(s', m.side).makingOffer == Actor(s, m.side).makingOffer;
    } else {
      FlagAfter(Actor(s, m.side), EventOf(s, m));
      assert Actor(s', m.side) == PeerLink.Step(Actor(s, m.side), EventOf(s, m));
    }
  }

  lemma {:induction false} RunMakesItsOffers(s: System, ms: seq<Move>)
    requires Run(s, ms)
    ensures Offers(Result(s, ms)) == Offers(s) + Begins(ms)
    decreases |ms|
  {
    if ms != [] {
      OnlyBeginningStartsOffers(s, ms[0]);
      RunMakesItsOffers(Next(s, ms[0]), ms[1..]);
    }
  }

  /**
   * From one settled state to the next every `negotiationneeded` leads to one offer, and if there was any the
   * pair has then agreed on one of these offers.
   */
  lemma EveryNeedIsNegotiated(s0: System, ms: seq<Move>, rest: seq<Move>)
    requires Initial(s0) && Run(s0, ms) && Settled(Result(s0, ms)) && Run(Result(s0, ms), rest)
    ensures var s := Result(s0, ms); var s' := Result(s, rest);
      Settled(s') ==>
        && s'.nextId == s.nextId + Begins(rest)
        && s'.low.connection.agreed == s'.high.connection.agreed
        && (Begins(rest) > 0 ==> s'.low.connection.agreed.Some?
                                 && s.nextId <= s'.low.connection.agreed.value < s.nextId + Begins(rest))
  {
    RunMakesItsOffers(Result(s0, ms), rest);
    EveryRenegotiationTakesEffect(s0, ms, rest);
  }
}
