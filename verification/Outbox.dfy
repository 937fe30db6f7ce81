/**
 * The queue at work: attempts in flight, the alarm's pass over the queue, and the API's event log
 * (apps/realtime/src/index.ts; ingest in apps/api/src/application.ts and repository.ts).
 *
 * Steps interleave at the awaited fetch. The API may handle a copy of a delivery at any time after it was
 * first sent, even when the Worker has already given that attempt up.
 */
module Outbox {
  import opened Numbers
  import opened Options
  import opened OutboxStore

  datatype Logged = Logged(id: nat, event: Event)

  /** The rest of an alarm's snapshot, and the attempt it is waiting for. */
  datatype AlarmRun = AlarmRun(due: seq<Attempt>, current: Option<nat>)

  /** When an alarm took its snapshot, and which failures and updates had happened by then. */
  datatype Reading = Reading(at: nat, failedAt: map<nat, nat>, updates: map<Key, seq<nat>>)

  /** What happened so far; nothing the code does depends on it. */
  datatype History = History(
    recorded: map<nat, Event>,
    newest: map<Key, nat>,
    discarded: set<nat>,
    sends: map<nat, nat>,
    overlapped: set<nat>,
    waited: map<nat, int>,
    updates: map<Key, seq<nat>>,
    failedAt: map<nat, nat>,
    reading: Reading)

  datatype World = World(
    store: Store,
    inflight: map<nat, Attempt>,
    run: Option<AlarmRun>,
    log: seq<Logged>,
    nextId: nat,
    nextToken: nat,
    history: History)

  datatype Step =
    | Record(event: Event, now: nat)
    | Fire(now: nat, order: seq<Key>)
    | Resume
    | Finish(now: nat, alarm: Option<nat>)
    | Ingest(id: nat)
    | Settle(token: nat, status: Option<int>, now: nat)

  const NoHistory := History(map[], map[], {}, map[], {}, map[], map[], map[], Reading(0, map[], map[]))

  const Empty := World(Store(map[], None), map[], None, [], 0, 0, NoHistory)

  function LogIds(log: seq<Logged>): set<nat> {
    set e <- log :: e.id
  }

  function SendsOf(w: World, id: nat): nat {
    if id in w.history.sends then w.history.sends[id] else 0
  }

  /** All the waits scheduled for a delivery after its failures. */
  function WaitedOf(w: World, id: nat): int {
    if id in w.history.waited then w.history.waited[id] else 0
  }

  ghost predicate InFlight(w: World, id: nat) {
    exists t <- w.inflight :: w.inflight[t].delivery.id == id
  }

  /** The ingest schema has no whiteboard variant. */
  predicate FitsSchema(event: Event) {
    !event.Whiteboard?
  }

  /** writeRoomEvent: an id that is already there is not written again. */
  function Write(log: seq<Logged>, id: nat, event: Event): seq<Logged> {
    if exists e :: e in log && e.id == id then log else log + [Logged(id, event)]
  }

  ghost predicate Enabled(w: World, s: Step) {
    match s
    case Record(_, _) => true
    case Fire(now, order) =>
      w.run.None? && w.store.alarm.Some? && w.store.alarm.value <= now && Lists(order, w.store.queue)
    case Resume => w.run.Some? && w.run.value.current.None? && w.run.value.due != []
    case Finish(now, alarm) =>
      w.run.Some? && w.run.value.current.None? && w.run.value.due == [] && IsRearmed(w.store.queue, now, alarm)
    case Ingest(id) => id in w.history.sends && id in w.history.recorded && FitsSchema(w.history.recorded[id])
    case Settle(token, status, _) =>
      token in w.inflight && (Classify(status).Accepted? ==> w.inflight[token].delivery.id in LogIds(w.log))
  }

  /** When the snapshots of a key were recorded since it was last absent. */
  function UpdatesOf(w: World, key: Key): seq<nat> {
    if key in w.store.queue && key in w.history.updates then w.history.updates[key] else []
  }

  function AfterRecord(w: World, event: Event, now: nat): World {
    var id, h := w.nextId, w.history;
    var key := KeyOf(event, id);
    var h' := h.(recorded := h.recorded[id := event], newest := h.newest[key := id]);
    if key.SingleKey? then
      w.(store := Queued(w.store, id, event),
         inflight := w.inflight[w.nextToken := Attempt(key, Delivery(id, event, 0, None, None))],
         nextToken := w.nextToken + 1,
         nextId := id + 1,
         history := h'.(sends := h.sends[id := 1]))
    else
      w.(store := Coalesced(w.store, id, event, now),
         nextId := id + 1,
         history := h'.(updates := h.updates[key := UpdatesOf(w, key) + [now]]))
  }

  ghost function AfterFire(w: World, now: nat, order: seq<Key>): World
    requires Lists(order, w.store.queue)
  {
    var due := Due(w.store.queue, order, now);
    var again := set a <- due | InFlight(w, a.delivery.id) :: a.delivery.id;
    w.(store := w.store.(alarm := None),
       run := Some(AlarmRun(due, None)),
       history := w.history.(overlapped := w.history.overlapped + again,
                             reading := Reading(now, w.history.failedAt, w.history.updates)))
  }

  function AfterResume(w: World): World
    requires w.run.Some? && w.run.value.due != []
  {
    var a := w.run.value.due[0];
    w.(inflight := w.inflight[w.nextToken := a],
       run := Some(AlarmRun(w.run.value.due[1..], Some(w.nextToken))),
       nextToken := w.nextToken + 1,
       history := w.history.(sends := w.history.sends[a.delivery.id := SendsOf(w, a.delivery.id) + 1]))
  }

  /** A delivery is discarded by a permanent rejection or by its last failure. */
  predicate GivesUp(a: Attempt, outcome: Outcome) {
    outcome.Rejected? || (outcome.Failed? && a.delivery.attempts + 1 >= MAX_ATTEMPTS)
  }

  /** How long a failed attempt makes its delivery wait, if it is still queued. */
  function ScheduledWait(s: Store, a: Attempt, outcome: Outcome, now: nat): int {
    var queue := Concluded(s, a, outcome, now).queue;
    if IsCurrent(queue, a) && queue[a.key].next.Some? then queue[a.key].next.value - now else 0
  }

  function AfterSettle(w: World, token: nat, outcome: Outcome, now: nat): World
    requires token in w.inflight
  {
    var a, h := w.inflight[token], w.history;
    var waited := WaitedOf(w, a.delivery.id) + ScheduledWait(w.store, a, outcome, now);
    w.(store := Concluded(w.store, a, outcome, now),
       inflight := w.inflight - {token},
       run := if w.run.Some? && w.run.value.current == Some(token)
              then Some(w.run.value.(current := None)) else w.run,
       history := h.(discarded := h.discarded + (if GivesUp(a, outcome) then {a.delivery.id} else {}),
                     waited := h.waited[a.delivery.id := waited],
                     failedAt := if outcome.Failed? then h.failedAt[a.delivery.id := now] else h.failedAt))
  }

  ghost function Next(w: World, s: Step): World
    requires Enabled(w, s)
  {
    match s
    case Record(event, now) => AfterRecord(w, event, now)
    case Fire(now, order) => AfterFire(w, now, order)
    case Resume => AfterResume(w)
    case Finish(_, alarm) => w.(store := w.store.(alarm := alarm), run := None)
    case Ingest(id) => w.(log := Write(w.log, id, w.history.recorded[id]))
    case Settle(token, status, now) => AfterSettle(w, token, Classify(status), now)
  }

  ghost predicate Run(w: World, steps: seq<Step>)
    decreases |steps|
  {
    steps == [] || (Enabled(w, steps[0]) && Run(Next(w, steps[0]), steps[1..]))
  }

  ghost function Result(w: World, steps: seq<Step>): World
    requires Run(w, steps)
    decreases |steps|
  {
    if steps == [] then w else Result(Next(w, steps[0]), steps[1..])
  }

  // ---- Every copy of a delivery is the recorded one -----------------------------------------------

  predicate IsRecorded(h: History, key: Key, d: Delivery) {
    d.id in h.recorded && h.recorded[d.id] == d.event && key == KeyOf(d.event, d.id)
  }

  ghost predicate Known(w: World) {
    && (forall i <- w.history.recorded :: i < w.nextId)
    && (forall t <- w.inflight :: t < w.nextToken)
    && (forall k <- w.store.queue :: IsRecorded(w.history, k, w.store.queue[k]))
    && (forall t <- w.inflight :: IsRecorded(w.history, w.inflight[t].key, w.inflight[t].delivery))
    && (w.run.Some? ==> forall a <- w.run.value.due :: IsRecorded(w.history, a.key, a.delivery))
    && (forall i <- w.history.sends :: i in w.history.recorded)
    && (forall i <- w.history.waited :: i in w.history.recorded)
  }

  lemma RecordingForgetsNothing(w: World, event: Event, now: nat, key: Key, d: Delivery)
    requires Known(w) && IsRecorded(w.history, key, d)
    ensures IsRecorded(AfterRecord(w, event, now).history, key, d)
  {
  }

  lemma RecordKnowsQueue(w: World, event: Event, now: nat, k: Key)
    requires Known(w) && k in AfterRecord(w, event, now).store.queue
    ensures IsRecorded(AfterRecord(w, event, now).history, k, AfterRecord(w, event, now).store.queue[k])
  {
    if k != KeyOf(event, w.nextId) { RecordingForgetsNothing(w, event, now, k, w.store.queue[k]); }
  }

  lemma RecordKnowsInFlight(w: World, event: Event, now: nat, t: nat)
    requires Known(w) && t in AfterRecord(w, event, now).inflight
    ensures var w' := AfterRecord(w, event, now);
      t < w'.nextToken && IsRecorded(w'.history, w'.inflight[t].key, w'.inflight[t].delivery)
  {
    if t in w.inflight { RecordingForgetsNothing(w, event, now, w.inflight[t].key, w.inflight[t].delivery); }
  }

  lemma RecordKnows(w: World, event: Event, now: nat)
    requires Known(w)
    ensures Known(AfterRecord(w, event, now))
  {
    var w' := AfterRecord(w, event, now);
    forall k <- w'.store.queue ensures IsRecorded(w'.history, k, w'.store.queue[k]) {
      RecordKnowsQueue(w, event, now, k);
    }
    forall t <- w'.inflight
      ensures t < w'.nextToken && IsRecorded(w'.history, w'.inflight[t].key, w'.inflight[t].delivery)
    {
      RecordKnowsInFlight(w, event, now, t);
    }
    if w.run.Some? {
      forall a <- w.run.value.due ensures IsRecorded(w'.history, a.key, a.delivery) {
        RecordingForgetsNothing(w, event, now, a.key, a.delivery);
      }
    }
  }

  lemma ResumeKnows(w: World)
    requires Enabled(w, Resume) && Known(w)
    ensures Known(AfterResume(w))
  {
    assert w.run.value.due[0] in w.run.value.due;
    assert forall a <- w.run.value.due[1..] :: a in w.run.value.due;
  }

  lemma StepKnows(w: World, s: Step)
    requires Enabled(w, s) && Known(w)
    ensures Known(Next(w, s))
  {
    match s
    case Record(event, now) => RecordKnows(w, event, now);
    case Resume => ResumeKnows(w);
    case _ =>
  }

  // ---- The log: at most once, and only what was recorded ------------------------------------------

  ghost predicate LogIsSound(w: World) {
    && (forall e <- w.log :: e.id in w.history.recorded && w.history.recorded[e.id] == e.event && !e.event.Whiteboard?)
    && (forall i, j :: 0 <= i < j < |w.log| ==> w.log[i].id != w.log[j].id)
  }

  lemma StepKeepsLogSound(w: World, s: Step)
    requires Enabled(w, s) && Known(w) && LogIsSound(w)
    ensures LogIsSound(Next(w, s))
  {
  }

  // ---- Nothing recorded is lost -------------------------------------------------------------------

  predicate Accounted(w: World, key: Key, id: nat) {
    || (key in w.store.queue && w.store.queue[key].id == id)
    || id in LogIds(w.log)
    || id in w.history.discarded
  }

  ghost predicate NothingLost(w: World) {
    && (forall k <- w.store.queue :: k in w.history.newest && w.store.queue[k].id == w.history.newest[k])
    && (forall k <- w.history.newest :: Accounted(w, k, w.history.newest[k]))
    && (forall i <- w.history.recorded ::
          var k := KeyOf(w.history.recorded[i], i); k in w.history.newest && w.history.newest[k] >= i)
    && (forall k <- w.history.newest :: w.history.newest[k] in w.history.recorded
          && k == KeyOf(w.history.recorded[w.history.newest[k]], w.history.newest[k]))
  }

  lemma RecordLosesNothing(w: World, event: Event, now: nat)
    requires Known(w) && NothingLost(w)
    ensures NothingLost(AfterRecord(w, event, now))
  {
  }

  /** Concluding an attempt touches its own key only, and only if the entry is still the attempted delivery. */
  lemma ConcludedTouchesItsOwn(s: Store, a: Attempt, outcome: Outcome, now: nat)
    ensures var q := Concluded(s, a, outcome, now).queue;
      && (forall k :: k != a.key || !IsCurrent(s.queue, a) ==>
            (k in q <==> k in s.queue) && (k in q ==> q[k] == s.queue[k]))
      && (IsCurrent(s.queue, a) && (outcome.Accepted? || GivesUp(a, outcome)) ==> a.key !in q)
      && (IsCurrent(s.queue, a) && !outcome.Accepted? && !GivesUp(a, outcome) ==>
            a.key in q && q[a.key].id == a.delivery.id && q[a.key].next.Some?
            && q[a.key].attempts == a.delivery.attempts + 1 < MAX_ATTEMPTS
            && q[a.key].event == a.delivery.event && q[a.key].queuedAt == a.delivery.queuedAt)
  {
  }

  lemma SettleLosesNothing(w: World, token: nat, status: Option<int>, now: nat)
    requires Enabled(w, Settle(token, status, now)) && Known(w) && NothingLost(w)
    ensures NothingLost(AfterSettle(w, token, Classify(status), now))
  {
    var a, outcome := w.inflight[token], Classify(status);
    ConcludedTouchesItsOwn(w.store, a, outcome, now);
    var w' := AfterSettle(w, token, outcome, now);
    forall k <- w'.history.newest
      ensures Accounted(w', k, w'.history.newest[k])
    {
      assert Accounted(w, k, w.history.newest[k]);
    }
  }

  lemma StepLosesNothing(w: World, s: Step)
    requires Enabled(w, s) && Known(w) && NothingLost(w)
    ensures NothingLost(Next(w, s))
  {
    match s
    case Record(event, now) => RecordLosesNothing(w, event, now);
    case Settle(token, status, now) => SettleLosesNothing(w, token, status, now);
    case Ingest(id) => assert forall i <- LogIds(w.log) :: i in LogIds(Next(w, s).log);
    case _ =>
  }

  // ---- Nothing queued is stranded -----------------------------------------------------------------

  ghost predicate IsCovered(w: World, key: Key)
    requires key in w.store.queue
  {
    var d, alarm := w.store.queue[key], w.store.alarm;
    if d.next.Some? then alarm.Some? && alarm.value <= d.next.value
    else alarm.Some? || exists t <- w.inflight :: w.inflight[t].key == key && w.inflight[t].delivery.id == d.id
  }

  ghost predicate NothingStranded(w: World) {
    w.run.None? ==> forall k <- w.store.queue :: IsCovered(w, k)
  }

  lemma RecordStrandsNothing(w: World, event: Event, now: nat)
    requires Known(w) && NothingStranded(w)
    ensures NothingStranded(AfterRecord(w, event, now))
  {
    var w' := AfterRecord(w, event, now);
    if w.run.None? {
      forall k <- w'.store.queue
        ensures IsCovered(w', k)
      {
        if k == KeyOf(event, w.nextId) {
          assert k.SingleKey? ==> w'.inflight[w.nextToken].key == k;
        } else {
          assert IsCovered(w, k);
          assert forall t <- w.inflight :: w'.inflight[t] == w.inflight[t];
        }
      }
    }
  }

  lemma SettleStrandsNothing(w: World, token: nat, outcome: Outcome, now: nat)
    requires token in w.inflight && Known(w) && NothingStranded(w)
    ensures NothingStranded(AfterSettle(w, token, outcome, now))
  {
    var w', a := AfterSettle(w, token, outcome, now), w.inflight[token];
    ConcludedTouchesItsOwn(w.store, a, outcome, now);
    if w.run.None? {
      forall k <- w'.store.queue
        ensures IsCovered(w', k)
      {
        if k != a.key || !IsCurrent(w.store.queue, a) {
          SettleKeepsCover(w, token, outcome, now, k);
        }
      }
    }
  }

  lemma SettleKeepsCover(w: World, token: nat, outcome: Outcome, now: nat, k: Key)
    requires token in w.inflight && k in w.store.queue && IsCovered(w, k)
    requires k != w.inflight[token].key || !IsCurrent(w.store.queue, w.inflight[token])
    ensures k in AfterSettle(w, token, outcome, now).store.queue
    ensures IsCovered(AfterSettle(w, token, outcome, now), k)
  {
    var w', d := AfterSettle(w, token, outcome, now), w.store.queue[k];
    ConcludedTouchesItsOwn(w.store, w.inflight[token], outcome, now);
    if d.next.None? && w.store.alarm.None? {
      var t :| t in w.inflight && w.inflight[t].key == k && w.inflight[t].delivery.id == d.id;
      assert t != token;
      assert t in w'.inflight && w'.inflight[t] == w.inflight[t];
    }
  }

  lemma StepStrandsNothing(w: World, s: Step)
    requires Enabled(w, s) && Known(w) && NothingStranded(w)
    ensures NothingStranded(Next(w, s))
  {
    match s
    case Record(event, now) => RecordStrandsNothing(w, event, now);
    case Settle(token, status, now) => SettleStrandsNothing(w, token, Classify(status), now);
    case Ingest(_) =>
      if w.run.None? { assert forall k <- w.store.queue :: IsCovered(w, k) ==> IsCovered(Next(w, s), k); }
    case _ =>
  }

  // ---- Retry budget -------------------------------------------------------------------------------

  ghost predicate WithinBudget(w: World) {
    && (forall k <- w.store.queue :: w.store.queue[k].attempts < MAX_ATTEMPTS)
    && (forall t <- w.inflight :: w.inflight[t].delivery.attempts < MAX_ATTEMPTS)
    && (w.run.Some? ==> forall a <- w.run.value.due :: a.delivery.attempts < MAX_ATTEMPTS)
  }

  lemma StepStaysWithinBudget(w: World, s: Step)
    requires Enabled(w, s) && WithinBudget(w)
    ensures WithinBudget(Next(w, s))
  {
  }

  /**
   * Two attempts of one delivery overlap when a copy of it is read while another is in flight. Until that
   * happens every copy of it knows how often it has been sent.
   */
  ghost predicate SendsAgree(w: World, id: nat) {
    id !in w.history.overlapped ==>
      && SendsOf(w, id) <= MAX_ATTEMPTS
      && (forall k <- w.store.queue :: w.store.queue[k].id == id ==>
            SendsOf(w, id) == w.store.queue[k].attempts + if InFlight(w, id) then 1 else 0)
      && (forall t <- w.inflight :: w.inflight[t].delivery.id == id ==>
            SendsOf(w, id) == w.inflight[t].delivery.attempts + 1)
      && (forall t, u | t in w.inflight && u in w.inflight ::
            w.inflight[t].delivery.id == id == w.inflight[u].delivery.id ==> t == u)
      && (w.run.Some? ==> DueAgrees(w.run.value.due, id, SendsOf(w, id), InFlight(w, id)))
  }

  /** Copies of `id` in an alarm's snapshot: at most one, none while it is in flight, and up to date. */
  ghost predicate DueAgrees(due: seq<Attempt>, id: nat, sends: nat, inFlight: bool) {
    forall i :: 0 <= i < |due| && due[i].delivery.id == id ==>
      && sends == due[i].delivery.attempts && !inFlight
      && forall j :: 0 <= j < |due| && due[j].delivery.id == id ==> i == j
  }

  lemma {:induction false} DueAgreesInitially(w: World, order: seq<Key>, now: nat, id: nat)
    requires Known(w) && SendsAgree(w, id) && id !in w.history.overlapped && !InFlight(w, id)
    requires forall k <- order :: k in w.store.queue
    requires forall i, j :: 0 <= i < j < |order| ==> order[i] != order[j]
    ensures DueAgrees(Due(w.store.queue, order, now), id, SendsOf(w, id), false)
  {
    if order != [] {
      var n := |order| - 1;
      DueAgreesInitially(w, order[..n], now, id);
      if w.store.queue[order[n]].id == id {
        forall a <- Due(w.store.queue, order[..n], now)
          ensures a.delivery.id != id
        {
          assert a.key in order[..n] && IsRecorded(w.history, a.key, a.delivery);
          assert IsRecorded(w.history, order[n], w.store.queue[order[n]]);
        }
      }
    }
  }

  lemma InFlightOf(w: World, id: nat) returns (t: nat)
    requires InFlight(w, id)
    ensures t in w.inflight && w.inflight[t].delivery.id == id
  {
    t :| t in w.inflight && w.inflight[t].delivery.id == id;
  }

  /** Adding an attempt of another delivery leaves this one's alone. */
  lemma InFlightAfterStart(w: World, w': World, a: Attempt, id: nat)
    requires forall t <- w.inflight :: t < w.nextToken
    requires w'.inflight == w.inflight[w.nextToken := a]
    ensures InFlight(w', id) <==> InFlight(w, id) || a.delivery.id == id
  {
    if InFlight(w, id) {
      var t := InFlightOf(w, id);
      assert w'.inflight[t] == w.inflight[t];
    }
    if a.delivery.id == id { assert w'.inflight[w.nextToken] == a; }
  }

  lemma RecordKeepsSends(w: World, event: Event, now: nat, id: nat)
    requires Known(w) && SendsAgree(w, id)
    ensures SendsAgree(AfterRecord(w, event, now), id)
  {
    var w' := AfterRecord(w, event, now);
    if KeyOf(event, w.nextId).SingleKey? {
      InFlightAfterStart(w, w', Attempt(KeyOf(event, w.nextId), Delivery(w.nextId, event, 0, None, None)), id);
    } else {
      assert InFlight(w', id) <==> InFlight(w, id);
    }
    if id == w.nextId {
      assert id !in w.history.sends && !InFlight(w, id);
      assert w.run.Some? ==> forall a <- w.run.value.due :: a.delivery.id != id;
    }
  }

  lemma FireKeepsSends(w: World, now: nat, order: seq<Key>, id: nat)
    requires Enabled(w, Fire(now, order)) && Known(w) && SendsAgree(w, id)
    ensures SendsAgree(AfterFire(w, now, order), id)
  {
    var w', due := AfterFire(w, now, order), Due(w.store.queue, order, now);
    assert InFlight(w', id) <==> InFlight(w, id);
    if id !in w'.history.overlapped {
      if InFlight(w, id) {
        assert forall a <- due :: a.delivery.id != id;
      } else {
        DueAgreesInitially(w, order, now, id);
      }
    }
  }

  lemma ResumeKeepsSends(w: World, id: nat)
    requires Enabled(w, Resume) && Known(w) && WithinBudget(w) && SendsAgree(w, id)
    ensures SendsAgree(AfterResume(w), id)
  {
    var w', due := AfterResume(w), w.run.value.due;
    InFlightAfterStart(w, w', due[0], id);
    assert forall i :: 0 <= i < |due| - 1 ==> due[1..][i] == due[i + 1];
    assert due[0] in due;
  }

  lemma SettleKeepsSends(w: World, token: nat, outcome: Outcome, now: nat, id: nat)
    requires token in w.inflight && Known(w) && SendsAgree(w, id)
    ensures SendsAgree(AfterSettle(w, token, outcome, now), id)
  {
    var w', a := AfterSettle(w, token, outcome, now), w.inflight[token];
    ConcludedTouchesItsOwn(w.store, a, outcome, now);
    if a.delivery.id != id && InFlight(w, id) {
      var t := InFlightOf(w, id);
      assert t in w'.inflight && w'.inflight[t] == w.inflight[t];
    }
    if id !in w.history.overlapped && a.delivery.id == id {
      assert InFlight(w, id) && !InFlight(w', id);
      assert forall k <- w.store.queue :: w.store.queue[k].id == id ==>
        IsRecorded(w.history, k, w.store.queue[k]) && IsRecorded(w.history, a.key, a.delivery) && k == a.key;
    }
  }

  lemma StepKeepsSends(w: World, s: Step, id: nat)
    requires Enabled(w, s) && Known(w) && WithinBudget(w) && SendsAgree(w, id)
    ensures SendsAgree(Next(w, s), id)
  {
    match s
    case Record(event, now) => RecordKeepsSends(w, event, now, id);
    case Fire(now, order) => FireKeepsSends(w, now, order, id);
    case Resume => ResumeKeepsSends(w, id);
    case Settle(token, status, now) => SettleKeepsSends(w, token, Classify(status), now, id);
    case _ => assert InFlight(Next(w, s), id) <==> InFlight(w, id);
  }

  /** Until attempts of a delivery overlap, its copies have waited exactly as the backoff says. */
  ghost predicate WaitsAgree(w: World, id: nat) {
    id !in w.history.overlapped ==>
      && WaitedOf(w, id) <= TotalDelay(MAX_ATTEMPTS - 1)
      && (forall k <- w.store.queue :: w.store.queue[k].id == id ==>
            WaitedOf(w, id) == TotalDelay(w.store.queue[k].attempts))
      && (forall t <- w.inflight :: w.inflight[t].delivery.id == id ==>
            WaitedOf(w, id) == TotalDelay(w.inflight[t].delivery.attempts))
      && (w.run.Some? ==> forall a <- w.run.value.due :: a.delivery.id == id ==>
            WaitedOf(w, id) == TotalDelay(a.delivery.attempts))
  }

  lemma ScheduledWaitIsTheBackoff(s: Store, a: Attempt, outcome: Outcome, now: nat)
    requires a.delivery.attempts < MAX_ATTEMPTS
    ensures var q := Concluded(s, a, outcome, now).queue;
      if IsCurrent(q, a) then
        && outcome.Failed? && q[a.key].attempts == a.delivery.attempts + 1 < MAX_ATTEMPTS
        && TotalDelay(a.delivery.attempts) + ScheduledWait(s, a, outcome, now) == TotalDelay(q[a.key].attempts)
      else ScheduledWait(s, a, outcome, now) == 0
  {
  }

  lemma SettleKeepsWaits(w: World, token: nat, outcome: Outcome, now: nat, id: nat)
    requires token in w.inflight && Known(w) && WithinBudget(w) && SendsAgree(w, id) && WaitsAgree(w, id)
    ensures WaitsAgree(AfterSettle(w, token, outcome, now), id)
  {
    var a := w.inflight[token];
    if a.delivery.id != id {
      ConcludedTouchesItsOwn(w.store, a, outcome, now);
      assert WaitedOf(AfterSettle(w, token, outcome, now), id) == WaitedOf(w, id);
    } else if id !in w.history.overlapped {
      OnlyCopyWaits(w, token, outcome, now);
    }
  }

  lemma NoOtherKey(w: World, token: nat, k: Key)
    requires token in w.inflight && Known(w) && k in w.store.queue
    requires w.store.queue[k].id == w.inflight[token].delivery.id
    ensures k == w.inflight[token].key
  {
    assert IsRecorded(w.history, k, w.store.queue[k]);
    assert IsRecorded(w.history, w.inflight[token].key, w.inflight[token].delivery);
  }

  /** How long a delivery has waited once an attempt of it is settled. */
  lemma WaitedAfterSettle(w: World, token: nat, outcome: Outcome, now: nat)
    requires token in w.inflight && WithinBudget(w)
    requires WaitedOf(w, w.inflight[token].delivery.id) == TotalDelay(w.inflight[token].delivery.attempts)
    ensures var w', a := AfterSettle(w, token, outcome, now), w.inflight[token]; var q := w'.store.queue;
      && WaitedOf(w', a.delivery.id) <= TotalDelay(MAX_ATTEMPTS - 1)
      && (IsCurrent(q, a) ==> WaitedOf(w', a.delivery.id) == TotalDelay(q[a.key].attempts))
  {
    var a := w.inflight[token];
    ScheduledWaitIsTheBackoff(w.store, a, outcome, now);
    TotalDelayGrows(a.delivery.attempts, MAX_ATTEMPTS - 1);
    if a.delivery.attempts + 1 < MAX_ATTEMPTS { TotalDelayGrows(a.delivery.attempts + 1, MAX_ATTEMPTS - 1); }
  }

  /** The settled attempt was the only copy of its delivery but for the queue's, so only that one is left. */
  lemma OnlyCopyWaits(w: World, token: nat, outcome: Outcome, now: nat)
    requires token in w.inflight && Known(w) && WithinBudget(w)
    requires var id := w.inflight[token].delivery.id;
      SendsAgree(w, id) && WaitsAgree(w, id) && id !in w.history.overlapped
    ensures WaitsAgree(AfterSettle(w, token, outcome, now), w.inflight[token].delivery.id)
  {
    var w', a := AfterSettle(w, token, outcome, now), w.inflight[token];
    assert InFlight(w, a.delivery.id);
    WaitedAfterSettle(w, token, outcome, now);
    ConcludedTouchesItsOwn(w.store, a, outcome, now);
    forall k <- w'.store.queue | w'.store.queue[k].id == a.delivery.id
      ensures k == a.key
    {
      if k != a.key { NoOtherKey(w, token, k); }
    }
  }

  lemma {:induction false} TotalDelayGrows(m: nat, n: nat)
    requires m <= n
    ensures TotalDelay(m) <= TotalDelay(n)
  {
    if m < n { TotalDelayGrows(m, n - 1); }
  }

  lemma RecordKeepsWaits(w: World, event: Event, now: nat, id: nat)
    requires Known(w) && WaitsAgree(w, id)
    ensures WaitsAgree(AfterRecord(w, event, now), id)
  {
    var w' := AfterRecord(w, event, now);
    assert WaitedOf(w', id) == WaitedOf(w, id) && TotalDelay(0) == 0;
    if id == w.nextId {
      assert id !in w.history.waited;
      assert forall k <- w.store.queue :: IsRecorded(w.history, k, w.store.queue[k]);
      assert forall t <- w.inflight :: IsRecorded(w.history, w.inflight[t].key, w.inflight[t].delivery);
      assert w.run.Some? ==> forall a <- w.run.value.due :: IsRecorded(w.history, a.key, a.delivery);
    }
  }

  lemma FireKeepsWaits(w: World, now: nat, order: seq<Key>, id: nat)
    requires Enabled(w, Fire(now, order)) && WaitsAgree(w, id)
    ensures WaitsAgree(AfterFire(w, now, order), id)
  {
    assert WaitedOf(AfterFire(w, now, order), id) == WaitedOf(w, id);
  }

  lemma ResumeKeepsWaits(w: World, id: nat)
    requires Enabled(w, Resume) && WaitsAgree(w, id)
    ensures WaitsAgree(AfterResume(w), id)
  {
    assert WaitedOf(AfterResume(w), id) == WaitedOf(w, id);
    assert w.run.value.due[0] in w.run.value.due;
    assert forall a <- w.run.value.due[1..] :: a in w.run.value.due;
  }

  lemma StepKeepsWaits(w: World, s: Step, id: nat)
    requires Enabled(w, s) && Known(w) && WithinBudget(w) && SendsAgree(w, id) && WaitsAgree(w, id)
    ensures WaitsAgree(Next(w, s), id)
  {
    match s
    case Record(event, now) => RecordKeepsWaits(w, event, now, id);
    case Fire(now, order) => FireKeepsWaits(w, now, order, id);
    case Resume => ResumeKeepsWaits(w, id);
    case Settle(token, status, now) => SettleKeepsWaits(w, token, Classify(status), now, id);
    case _ =>
  }

  // ---- Retry budget when attempts overlap ---------------------------------------------------------

  predicate IsSnapshot(w: World, id: nat) {
    id in w.history.recorded && (w.history.recorded[id].Editor? || w.history.recorded[id].Whiteboard?)
  }

  /** An attempt that recording its event started, and not the alarm. */
  predicate IsFirst(w: World, t: nat) {
    t in w.inflight && !(w.run.Some? && w.run.value.current == Some(t))
  }

  ghost predicate FirstInFlight(w: World, id: nat) {
    exists t :: IsFirst(w, t) && w.inflight[t].delivery.id == id
  }

  predicate AlarmsInFlight(w: World, id: nat) {
    && w.run.Some? && w.run.value.current.Some? && w.run.value.current.value in w.inflight
    && w.inflight[w.run.value.current.value].delivery.id == id
  }

  /** Each delivery has one attempt that is not the alarm's at most; it is an own event's, and its first. */
  ghost predicate FirstAttempts(w: World) {
    && (w.run.Some? && w.run.value.current.Some? ==> w.run.value.current.value in w.inflight)
    && (forall t :: IsFirst(w, t) ==> w.inflight[t].delivery.attempts == 0 && w.inflight[t].key.SingleKey?)
    && (forall t, u :: IsFirst(w, t) && IsFirst(w, u) && w.inflight[t].delivery.id == w.inflight[u].delivery.id ==>
          t == u)
  }

  /**
   * What a delivery may have been sent and made to wait beyond its count: nothing for a snapshot; its first
   * attempt while that is in flight; and what the alarm did before that attempt failed and set the count back.
   */
  ghost function SendSlack(w: World, id: nat): nat {
    if FirstInFlight(w, id) then 1 else if IsSnapshot(w, id) then 0 else MAX_ATTEMPTS - 1
  }

  ghost function WaitSlack(w: World, id: nat): nat {
    if FirstInFlight(w, id) || IsSnapshot(w, id) then 0 else TotalDelay(MAX_ATTEMPTS - 1)
  }

  /** A copy with count n, `sending` times in flight, accounts for all sends and waits but the slack. */
  ghost predicate Accounts(w: World, id: nat, n: nat, sending: nat) {
    && SendsOf(w, id) <= SendSlack(w, id) + n + sending
    && WaitedOf(w, id) <= WaitSlack(w, id) + TotalDelay(n)
  }

  ghost predicate DueAccounts(w: World, due: seq<Attempt>, id: nat) {
    forall i :: 0 <= i < |due| && due[i].delivery.id == id ==>
      && Accounts(w, id, due[i].delivery.attempts, 0)
      && forall j :: 0 <= j < |due| && due[j].delivery.id == id ==> i == j
  }

  ghost predicate HasBudget(w: World, id: nat) {
    && SendsOf(w, id) <= (if IsSnapshot(w, id) then MAX_ATTEMPTS else 2 * MAX_ATTEMPTS - 1)
    && WaitedOf(w, id) <= (if IsSnapshot(w, id) then 1 else 2) * TotalDelay(MAX_ATTEMPTS - 1)
  }

  /** The alarm's own attempt outdates what is queued, until it is settled. */
  ghost predicate CopiesAccount(w: World, id: nat) {
    && (AlarmsInFlight(w, id) ==>
          && Accounts(w, id, w.inflight[w.run.value.current.value].delivery.attempts, 1)
          && forall a <- w.run.value.due :: a.delivery.id != id)
    && (!AlarmsInFlight(w, id) ==> forall k <- w.store.queue :: w.store.queue[k].id == id ==>
          Accounts(w, id, w.store.queue[k].attempts, 0))
    && (w.run.Some? ==> DueAccounts(w, w.run.value.due, id))
  }

  lemma StepKeepsFirstAttempts(w: World, s: Step)
    requires Enabled(w, s) && Known(w) && FirstAttempts(w)
    ensures FirstAttempts(Next(w, s))
  {
    var w' := Next(w, s);
    match s
    case Record(event, now) => RecordKeepsFirstAttempts(w, event, now);
    case Resume => assert forall t :: IsFirst(w', t) ==> IsFirst(w, t) && w'.inflight[t] == w.inflight[t];
    case Settle(_, _, _) => assert forall t :: IsFirst(w', t) ==> IsFirst(w, t) && w'.inflight[t] == w.inflight[t];
    case _ => assert forall t :: IsFirst(w', t) <==> IsFirst(w, t);
  }

  lemma RecordKeepsFirstAttempts(w: World, event: Event, now: nat)
    requires Known(w) && FirstAttempts(w)
    ensures FirstAttempts(AfterRecord(w, event, now))
  {
    var w' := AfterRecord(w, event, now);
    forall t | IsFirst(w', t)
      ensures t == w.nextToken || (IsFirst(w, t) && w'.inflight[t] == w.inflight[t])
    {
    }
    forall t | IsFirst(w, t)
      ensures w.inflight[t].delivery.id != w.nextId
    {
      assert IsRecorded(w.history, w.inflight[t].key, w.inflight[t].delivery);
    }
  }
  /** The account of a delivery is as before, or has more slack. */
  ghost predicate SameAccount(w: World, w': World, id: nat) {
    && SendsOf(w', id) == SendsOf(w, id) && WaitedOf(w', id) == WaitedOf(w, id)
    && (IsSnapshot(w', id) <==> IsSnapshot(w, id))
    && SendSlack(w, id) <= SendSlack(w', id) && WaitSlack(w, id) <= WaitSlack(w', id)
  }

  /** Nothing of a delivery is new: every copy of it in w' was there in w. */
  ghost predicate SameCopies(w: World, w': World, id: nat) {
    && (AlarmsInFlight(w', id) <==> AlarmsInFlight(w, id))
    && (AlarmsInFlight(w, id) ==>
          w'.inflight[w'.run.value.current.value] == w.inflight[w.run.value.current.value])
    && (forall k <- w'.store.queue :: w'.store.queue[k].id == id ==>
          k in w.store.queue && w'.store.queue[k] == w.store.queue[k])
    && (w'.run.Some? ==> w.run.Some? && w'.run.value.due == w.run.value.due)
  }

  lemma UntouchedAccounts(w: World, w': World, id: nat)
    requires SameAccount(w, w', id) && SameCopies(w, w', id) && HasBudget(w, id) && CopiesAccount(w, id)
    ensures HasBudget(w', id) && CopiesAccount(w', id)
  {
    if w'.run.Some? { DueStillAccounts(w, w', w.run.value.due, id); }
  }

  lemma SameFirst(w: World, w': World, id: nat)
    requires forall t ::
      IsFirst(w', t) && w'.inflight[t].delivery.id == id <==> IsFirst(w, t) && w.inflight[t].delivery.id == id
    ensures FirstInFlight(w', id) <==> FirstInFlight(w, id)
  {
  }

  lemma RecordKeepsAccounts(w: World, event: Event, now: nat, id: nat)
    requires Known(w) && FirstAttempts(w) && HasBudget(w, id) && CopiesAccount(w, id)
    ensures HasBudget(AfterRecord(w, event, now), id) && CopiesAccount(AfterRecord(w, event, now), id)
  {
    var w' := AfterRecord(w, event, now);
    if id == w.nextId {
      RecordOpensAnAccount(w, event, now);
    } else {
      SameFirst(w, w', id);
      RecordLeavesOthers(w, event, now, id);
      UntouchedAccounts(w, w', id);
    }
  }

  lemma RecordLeavesOthers(w: World, event: Event, now: nat, id: nat)
    requires Known(w) && FirstAttempts(w) && id != w.nextId
    requires FirstInFlight(AfterRecord(w, event, now), id) <==> FirstInFlight(w, id)
    ensures SameAccount(w, AfterRecord(w, event, now), id) && SameCopies(w, AfterRecord(w, event, now), id)
  {
  }

  lemma NothingOfTheNext(w: World)
    requires Known(w)
    ensures SendsOf(w, w.nextId) == 0 && WaitedOf(w, w.nextId) == 0
    ensures forall k <- w.store.queue :: w.store.queue[k].id != w.nextId
    ensures forall t <- w.inflight :: w.inflight[t].delivery.id != w.nextId
    ensures w.run.Some? ==> forall a <- w.run.value.due :: a.delivery.id != w.nextId
  {
    forall k <- w.store.queue ensures w.store.queue[k].id != w.nextId {
      assert IsRecorded(w.history, k, w.store.queue[k]);
    }
    forall t <- w.inflight ensures w.inflight[t].delivery.id != w.nextId {
      assert IsRecorded(w.history, w.inflight[t].key, w.inflight[t].delivery);
    }
    if w.run.Some? {
      forall a <- w.run.value.due ensures a.delivery.id != w.nextId {
        assert IsRecorded(w.history, a.key, a.delivery);
      }
    }
  }

  lemma RecordOpensAnAccount(w: World, event: Event, now: nat)
    requires Known(w) && FirstAttempts(w)
    ensures HasBudget(AfterRecord(w, event, now), w.nextId) && CopiesAccount(AfterRecord(w, event, now), w.nextId)
  {
    var w', id := AfterRecord(w, event, now), w.nextId;
    NothingOfTheNext(w);
    assert TotalDelay(0) == 0 && TotalDelay(MAX_ATTEMPTS - 1) >= 0;
    if KeyOf(event, id).SingleKey? {
      assert IsFirst(w', w.nextToken) && FirstInFlight(w', id);
    } else {
      assert !FirstInFlight(w', id);
    }
  }

  lemma {:induction false} DueAccountsInitially(w: World, order: seq<Key>, now: nat, id: nat)
    requires Known(w) && (forall k <- order :: k in w.store.queue)
    requires forall k <- w.store.queue :: w.store.queue[k].id == id ==> Accounts(w, id, w.store.queue[k].attempts, 0)
    requires forall i, j :: 0 <= i < j < |order| ==> order[i] != order[j]
    ensures DueAccounts(w, Due(w.store.queue, order, now), id)
  {
    if order != [] {
      var n := |order| - 1;
      DueAccountsInitially(w, order[..n], now, id);
      if w.store.queue[order[n]].id == id {
        forall a <- Due(w.store.queue, order[..n], now)
          ensures a.delivery.id != id
        {
          assert a.key in order[..n] && IsRecorded(w.history, a.key, a.delivery);
          assert IsRecorded(w.history, order[n], w.store.queue[order[n]]);
        }
      }
    }
  }

  lemma FireKeepsAccounts(w: World, now: nat, order: seq<Key>, id: nat)
    requires Enabled(w, Fire(now, order)) && Known(w) && HasBudget(w, id) && CopiesAccount(w, id)
    ensures HasBudget(AfterFire(w, now, order), id) && CopiesAccount(AfterFire(w, now, order), id)
  {
    var w', due := AfterFire(w, now, order), Due(w.store.queue, order, now);
    SameFirst(w, w', id);
    assert SameAccount(w, w', id) && SameAccount(w', w, id);
    DueAccountsInitially(w, order, now, id);
    DueStillAccounts(w, w', due, id);
  }

  lemma DueStillAccounts(w: World, w': World, due: seq<Attempt>, id: nat)
    requires SameAccount(w, w', id) && DueAccounts(w, due, id)
    ensures DueAccounts(w', due, id)
  {
  }

  lemma FirstsAreNoSnapshots(w: World, id: nat)
    requires Known(w) && FirstAttempts(w) && FirstInFlight(w, id)
    ensures !IsSnapshot(w, id)
  {
    var t :| IsFirst(w, t) && w.inflight[t].delivery.id == id;
    assert IsRecorded(w.history, w.inflight[t].key, w.inflight[t].delivery);
  }

  lemma ResumeKeepsAccounts(w: World, id: nat)
    requires Enabled(w, Resume) && Known(w) && WithinBudget(w) && FirstAttempts(w)
    requires HasBudget(w, id) && CopiesAccount(w, id)
    ensures HasBudget(AfterResume(w), id) && CopiesAccount(AfterResume(w), id)
  {
    var w', due := AfterResume(w), w.run.value.due;
    assert forall t :: IsFirst(w', t) <==> IsFirst(w, t);
    SameFirst(w, w', id);
    assert forall i :: 0 <= i < |due| - 1 ==> due[1..][i] == due[i + 1];
    assert due[0] in due && !AlarmsInFlight(w, id);
    if due[0].delivery.id == id {
      if FirstInFlight(w, id) { FirstsAreNoSnapshots(w, id); }
      assert Accounts(w, id, due[0].delivery.attempts, 0);
    } else {
      assert SameAccount(w, w', id);
    }
  }

  lemma SettleKeepsAccounts(w: World, token: nat, outcome: Outcome, now: nat, id: nat)
    requires token in w.inflight && Known(w) && WithinBudget(w) && FirstAttempts(w)
    requires HasBudget(w, id) && CopiesAccount(w, id)
    ensures HasBudget(AfterSettle(w, token, outcome, now), id) && CopiesAccount(AfterSettle(w, token, outcome, now), id)
  {
    if w.inflight[token].delivery.id != id {
      OtherSettleKeepsAccounts(w, token, outcome, now, id);
    } else if IsFirst(w, token) {
      FirstSettleKeepsAccounts(w, token, outcome, now);
    } else {
      AlarmSettleKeepsAccounts(w, token, outcome, now);
    }
  }

  lemma OtherSettleKeepsAccounts(w: World, token: nat, outcome: Outcome, now: nat, id: nat)
    requires token in w.inflight && w.inflight[token].delivery.id != id && Known(w)
    requires HasBudget(w, id) && CopiesAccount(w, id)
    ensures HasBudget(AfterSettle(w, token, outcome, now), id) && CopiesAccount(AfterSettle(w, token, outcome, now), id)
  {
    var w' := AfterSettle(w, token, outcome, now);
    ConcludedTouchesItsOwn(w.store, w.inflight[token], outcome, now);
    SameFirst(w, w', id);
    UntouchedAccounts(w, w', id);
  }

  /** A settled attempt leaves at most one copy in the queue, counting one more and waiting for it. */
  lemma SettledCopy(w: World, token: nat, outcome: Outcome, now: nat)
    requires token in w.inflight && Known(w) && WithinBudget(w)
    ensures var w', a := AfterSettle(w, token, outcome, now), w.inflight[token];
      var id, q := a.delivery.id, w'.store.queue;
      && SendsOf(w', id) == SendsOf(w, id)
      && (forall k <- q :: q[k].id == id ==> k == a.key)
      && (if IsCurrent(q, a) then
            && a.key in w.store.queue && w.store.queue[a.key].id == id
            && q[a.key].attempts == a.delivery.attempts + 1 < MAX_ATTEMPTS
            && WaitedOf(w', id) + TotalDelay(a.delivery.attempts) == WaitedOf(w, id) + TotalDelay(q[a.key].attempts)
          else WaitedOf(w', id) == WaitedOf(w, id))
  {
    var w', a := AfterSettle(w, token, outcome, now), w.inflight[token];
    ConcludedTouchesItsOwn(w.store, a, outcome, now);
    ScheduledWaitIsTheBackoff(w.store, a, outcome, now);
    forall k <- w'.store.queue | w'.store.queue[k].id == a.delivery.id
      ensures k == a.key
    {
      if k != a.key { NoOtherKey(w, token, k); }
    }
  }

  lemma AlarmSettleKeepsBudget(w: World, token: nat, outcome: Outcome, now: nat)
    requires token in w.inflight && !IsFirst(w, token) && Known(w) && WithinBudget(w) && FirstAttempts(w)
    requires var id := w.inflight[token].delivery.id; HasBudget(w, id) && CopiesAccount(w, id)
    ensures HasBudget(AfterSettle(w, token, outcome, now), w.inflight[token].delivery.id)
  {
    var a := w.inflight[token];
    AlarmSettleLeavesSlack(w, token, outcome, now);
    SettledCopy(w, token, outcome, now);
    OneMoreWaitFits(w, AfterSettle(w, token, outcome, now), a.delivery.id, a.delivery.attempts);
  }

  lemma OneMoreWaitFits(w: World, w': World, id: nat, n: nat)
    requires HasBudget(w, id) && Accounts(w, id, n, 1)
    requires WaitSlack(w, id) <= (if IsSnapshot(w, id) then 0 else TotalDelay(MAX_ATTEMPTS - 1))
    requires SendsOf(w', id) == SendsOf(w, id) && (IsSnapshot(w', id) <==> IsSnapshot(w, id))
    requires WaitedOf(w', id) == WaitedOf(w, id)
      || (n + 1 < MAX_ATTEMPTS && WaitedOf(w', id) + TotalDelay(n) == WaitedOf(w, id) + TotalDelay(n + 1))
    ensures HasBudget(w', id)
  {
    if n + 1 < MAX_ATTEMPTS { TotalDelayGrows(n + 1, MAX_ATTEMPTS - 1); }
  }

  lemma AlarmSettleKeepsAccounts(w: World, token: nat, outcome: Outcome, now: nat)
    requires token in w.inflight && !IsFirst(w, token) && Known(w) && WithinBudget(w) && FirstAttempts(w)
    requires var id := w.inflight[token].delivery.id; HasBudget(w, id) && CopiesAccount(w, id)
    ensures var w', id := AfterSettle(w, token, outcome, now), w.inflight[token].delivery.id;
      HasBudget(w', id) && CopiesAccount(w', id)
  {
    AlarmSettleKeepsBudget(w, token, outcome, now);
    AlarmSettleLeavesSlack(w, token, outcome, now);
    SettledCopy(w, token, outcome, now);
    assert DueAccounts(AfterSettle(w, token, outcome, now), w.run.value.due, w.inflight[token].delivery.id);
  }

  lemma AlarmSettleLeavesSlack(w: World, token: nat, outcome: Outcome, now: nat)
    requires token in w.inflight && !IsFirst(w, token) && Known(w) && FirstAttempts(w)
    ensures var w', id := AfterSettle(w, token, outcome, now), w.inflight[token].delivery.id;
      && AlarmsInFlight(w, id) && !AlarmsInFlight(w', id)
      && w.run.value.current == Some(token) && w'.run == Some(w.run.value.(current := None))
      && (IsSnapshot(w', id) <==> IsSnapshot(w, id))
      && SendSlack(w', id) == SendSlack(w, id) && WaitSlack(w', id) == WaitSlack(w, id)
      && WaitSlack(w, id) <= (if IsSnapshot(w, id) then 0 else TotalDelay(MAX_ATTEMPTS - 1))
  {
    var w', id := AfterSettle(w, token, outcome, now), w.inflight[token].delivery.id;
    assert forall t :: IsFirst(w', t) <==> IsFirst(w, t);
    SameFirst(w, w', id);
    TotalDelayGrows(0, MAX_ATTEMPTS - 1);
  }

  lemma FirstSettleKeepsAccounts(w: World, token: nat, outcome: Outcome, now: nat)
    requires token in w.inflight && IsFirst(w, token) && Known(w) && WithinBudget(w) && FirstAttempts(w)
    requires var id := w.inflight[token].delivery.id; HasBudget(w, id) && CopiesAccount(w, id)
    ensures var w', id := AfterSettle(w, token, outcome, now), w.inflight[token].delivery.id;
      HasBudget(w', id) && CopiesAccount(w', id)
  {
    var w', a := AfterSettle(w, token, outcome, now), w.inflight[token];
    var id := a.delivery.id;
    FirstsAreNoSnapshots(w, id);
    assert !FirstInFlight(w', id) && FirstInFlight(w, id);
    assert AlarmsInFlight(w', id) <==> AlarmsInFlight(w, id);
    SettledCopy(w, token, outcome, now);
    assert TotalDelay(0) == 0;
    TotalDelayGrows(1, MAX_ATTEMPTS - 1);
    if IsCurrent(w'.store.queue, a) {
      var n := if AlarmsInFlight(w, id) then w.inflight[w.run.value.current.value].delivery.attempts
               else w.store.queue[a.key].attempts;
      TotalDelayGrows(n, MAX_ATTEMPTS - 1);
    }
  }

  lemma StepKeepsAccounts(w: World, s: Step, id: nat)
    requires Enabled(w, s) && Known(w) && WithinBudget(w) && FirstAttempts(w)
    requires HasBudget(w, id) && CopiesAccount(w, id)
    ensures HasBudget(Next(w, s), id) && CopiesAccount(Next(w, s), id)
  {
    match s
    case Record(event, now) => RecordKeepsAccounts(w, event, now, id);
    case Fire(now, order) => FireKeepsAccounts(w, now, order, id);
    case Resume => ResumeKeepsAccounts(w, id);
    case Settle(token, status, now) => SettleKeepsAccounts(w, token, Classify(status), now, id);
    case _ =>
      SameFirst(w, Next(w, s), id);
      assert SameAccount(w, Next(w, s), id);
  }

  // ---- Coalescing schedule ------------------------------------------------------------------------

  predicate CopyMatches(queue: Queue, a: Attempt) {
    IsCurrent(queue, a) ==> queue[a.key].queuedAt == a.delivery.queuedAt
  }

  /** A queued snapshot, and every current copy of it, remembers the first update since its key was absent. */
  ghost predicate KeepsFirstUpdate(w: World) {
    && (forall k <- w.store.queue :: !k.SingleKey? ==>
          && k in w.history.updates && w.history.updates[k] != []
          && w.store.queue[k].queuedAt == Some(w.history.updates[k][0]))
    && (forall t <- w.inflight :: CopyMatches(w.store.queue, w.inflight[t]))
    && (w.run.Some? ==> forall a <- w.run.value.due :: CopyMatches(w.store.queue, a))
  }

  lemma CopyStillMatches(w: World, event: Event, now: nat, a: Attempt)
    requires CopyMatches(w.store.queue, a) && a.delivery.id < w.nextId
    ensures CopyMatches(AfterRecord(w, event, now).store.queue, a)
  {
  }

  lemma FirstUpdateIsKept(w: World, event: Event, now: nat, k: Key)
    requires KeepsFirstUpdate(w) && k in AfterRecord(w, event, now).store.queue && !k.SingleKey?
    ensures var w' := AfterRecord(w, event, now);
      && k in w'.history.updates && w'.history.updates[k] != []
      && w'.store.queue[k].queuedAt == Some(w'.history.updates[k][0])
  {
  }

  lemma RecordKeepsFirstUpdate(w: World, event: Event, now: nat)
    requires Known(w) && KeepsFirstUpdate(w)
    ensures KeepsFirstUpdate(AfterRecord(w, event, now))
  {
    var w' := AfterRecord(w, event, now);
    forall k <- w'.store.queue | !k.SingleKey?
      ensures k in w'.history.updates && w'.history.updates[k] != []
      ensures w'.store.queue[k].queuedAt == Some(w'.history.updates[k][0])
    {
      FirstUpdateIsKept(w, event, now, k);
    }
    forall t <- w.inflight ensures CopyMatches(w'.store.queue, w.inflight[t]) {
      assert IsRecorded(w.history, w.inflight[t].key, w.inflight[t].delivery);
      CopyStillMatches(w, event, now, w.inflight[t]);
    }
    if w.run.Some? {
      forall a <- w.run.value.due ensures CopyMatches(w'.store.queue, a) {
        assert IsRecorded(w.history, a.key, a.delivery);
        CopyStillMatches(w, event, now, a);
      }
    }
  }

  lemma SettleKeepsFirstUpdate(w: World, token: nat, outcome: Outcome, now: nat)
    requires token in w.inflight && Known(w) && KeepsFirstUpdate(w)
    ensures KeepsFirstUpdate(AfterSettle(w, token, outcome, now))
  {
    ConcludedTouchesItsOwn(w.store, w.inflight[token], outcome, now);
    assert CopyMatches(w.store.queue, w.inflight[token]);
  }

  lemma StepKeepsFirstUpdate(w: World, s: Step)
    requires Enabled(w, s) && Known(w) && KeepsFirstUpdate(w)
    ensures KeepsFirstUpdate(Next(w, s))
  {
    match s
    case Record(event, now) => RecordKeepsFirstUpdate(w, event, now);
    case Settle(token, status, now) => SettleKeepsFirstUpdate(w, token, Classify(status), now);
    case Resume =>
      assert w.run.value.due[0] in w.run.value.due;
      assert forall a <- w.run.value.due[1..] :: a in w.run.value.due;
    case _ =>
  }

  /** The times of the updates of a queued snapshot, and when they make it due. */
  function DueTime(us: seq<nat>): nat
    requires us != []
  {
    Min(us[|us| - 1] + QUIET_MS, us[0] + MAX_WAIT_MS)
  }

  /** A snapshot that has not failed yet is due as its updates say. */
  ghost predicate KeepsSchedule(w: World) {
    forall k <- w.store.queue :: !k.SingleKey? && w.store.queue[k].attempts == 0 ==>
      && k in w.history.updates && w.history.updates[k] != []
      && w.store.queue[k].next == Some(DueTime(w.history.updates[k]))
  }

  lemma RecordKeepsSchedule(w: World, event: Event, now: nat)
    requires KeepsFirstUpdate(w) && KeepsSchedule(w)
    ensures KeepsSchedule(AfterRecord(w, event, now))
  {
    var w', key := AfterRecord(w, event, now), KeyOf(event, w.nextId);
    forall k <- w'.store.queue | !k.SingleKey? && w'.store.queue[k].attempts == 0
      ensures k in w'.history.updates && w'.history.updates[k] != []
      ensures w'.store.queue[k].next == Some(DueTime(w'.history.updates[k]))
    {
      if k == key {
        FirstUpdateIsKept(w, event, now, k);
      } else {
        assert k in w.store.queue;
      }
    }
  }

  lemma StepKeepsSchedule(w: World, s: Step)
    requires Enabled(w, s) && KeepsFirstUpdate(w) && KeepsSchedule(w)
    ensures KeepsSchedule(Next(w, s))
  {
    match s
    case Record(event, now) => RecordKeepsSchedule(w, event, now);
    case Settle(token, status, now) => ConcludedTouchesItsOwn(w.store, w.inflight[token], Classify(status), now);
    case _ =>
  }

  // ---- All of it over every run -------------------------------------------------------------------

  ghost predicate Inv(w: World) {
    && Known(w) && LogIsSound(w) && NothingLost(w) && NothingStranded(w)
    && WithinBudget(w) && KeepsFirstUpdate(w) && KeepsSchedule(w)
  }

  lemma StepKeeps(w: World, s: Step)
    requires Inv(w) && Enabled(w, s)
    ensures Inv(Next(w, s))
  {
    StepKnows(w, s);
    StepKeepsLogSound(w, s);
    StepLosesNothing(w, s);
    StepStrandsNothing(w, s);
    StepStaysWithinBudget(w, s);
    StepKeepsFirstUpdate(w, s);
    StepKeepsSchedule(w, s);
  }

  lemma {:induction false} RunKeeps(w: World, steps: seq<Step>)
    requires Inv(w) && Run(w, steps)
    ensures Inv(Result(w, steps))
    decreases |steps|
  {
    if steps != [] {
      StepKeeps(w, steps[0]);
      RunKeeps(Next(w, steps[0]), steps[1..]);
    }
  }

  /** How often an id is in the log. */
  function Occurrences(log: seq<Logged>, id: nat): nat {
    if log == [] then 0 else (if log[0].id == id then 1 else 0) + Occurrences(log[1..], id)
  }

  lemma {:induction false} OccurrencesOfDistinct(log: seq<Logged>, id: nat)
    requires forall i, j :: 0 <= i < j < |log| ==> log[i].id != log[j].id
    ensures Occurrences(log, id) == if id in LogIds(log) then 1 else 0
  {
    if log != [] {
      OccurrencesOfDistinct(log[1..], id);
      assert log == [log[0]] + log[1..];
      assert LogIds(log) == {log[0].id} + LogIds(log[1..]);
    }
  }

  /** Whatever is retried, overlaps or is given up: an event is in the log at most once, and unaltered. */
  lemma LoggedAtMostOnce(steps: seq<Step>, id: nat)
    requires Run(Empty, steps)
    ensures var w := Result(Empty, steps);
      && Occurrences(w.log, id) <= 1
      && (forall e <- w.log :: e.id in w.history.recorded && e.event == w.history.recorded[e.id])
  {
    RunKeeps(Empty, steps);
    OccurrencesOfDistinct(Result(Empty, steps).log, id);
  }

  /** Two snapshots of one document, or two of the board: the later replaces the earlier. */
  predicate SameSnapshot(e: Event, f: Event) {
    (e.Editor? && f.Editor? && e.document == f.document) || (e.Whiteboard? && f.Whiteboard?)
  }

  /** No later event replaces it; nothing replaces a chat message, an arrival, a departure or a screen share. */
  ghost predicate IsNewest(w: World, id: nat) {
    && id in w.history.recorded
    && forall j <- w.history.recorded :: j > id ==> !SameSnapshot(w.history.recorded[j], w.history.recorded[id])
  }

  ghost predicate IsQueued(w: World, id: nat) {
    && id in w.history.recorded
    && exists k <- w.store.queue :: w.store.queue[k].id == id && w.store.queue[k].event == w.history.recorded[id]
  }

  lemma NewestOfItsKey(w: World, id: nat)
    requires NothingLost(w) && id in w.history.recorded
    ensures var k := KeyOf(w.history.recorded[id], id);
      k in w.history.newest && (IsNewest(w, id) <==> w.history.newest[k] == id)
  {
    var k := KeyOf(w.history.recorded[id], id);
    var n := w.history.newest[k];
    assert k == KeyOf(w.history.recorded[n], n);
    if n == id {
      forall j <- w.history.recorded | SameSnapshot(w.history.recorded[j], w.history.recorded[id])
        ensures j <= id
      {
        assert KeyOf(w.history.recorded[j], j) == k;
      }
    }
  }

  lemma NewestIsAccounted(w: World, id: nat)
    requires Known(w) && NothingLost(w) && IsNewest(w, id)
    ensures IsQueued(w, id) || id in LogIds(w.log) || id in w.history.discarded
  {
    var k := KeyOf(w.history.recorded[id], id);
    NewestOfItsKey(w, id);
    assert Accounted(w, k, w.history.newest[k]);
    assert k in w.store.queue ==> IsRecorded(w.history, k, w.store.queue[k]);
  }

  /**
   * Every event that no later one replaces - each event of its own, and the last snapshot of each document and
   * of the board - is still queued, in the log, or was discarded.
   */
  lemma NewestIsNeverLost(steps: seq<Step>, id: nat)
    requires Run(Empty, steps) && IsNewest(Result(Empty, steps), id)
    ensures var w := Result(Empty, steps);
      IsQueued(w, id) || Occurrences(w.log, id) == 1 || id in w.history.discarded
  {
    RunKeeps(Empty, steps);
    var w := Result(Empty, steps);
    OccurrencesOfDistinct(w.log, id);
    NewestIsAccounted(w, id);
  }

  /** The queue holds one snapshot of each document and one of the board at most. */
  lemma OneSnapshotEach(steps: seq<Step>, k: Key, l: Key)
    requires Run(Empty, steps) && k in Result(Empty, steps).store.queue && l in Result(Empty, steps).store.queue
    ensures var q := Result(Empty, steps).store.queue; SameSnapshot(q[k].event, q[l].event) ==> k == l
  {
    RunKeeps(Empty, steps);
    var w := Result(Empty, steps);
    assert IsRecorded(w.history, k, w.store.queue[k]) && IsRecorded(w.history, l, w.store.queue[l]);
  }

  /** A run that discarded nothing and drained its queue has logged every such event exactly once. */
  lemma DrainedRunsLogEverythingOnce(steps: seq<Step>, id: nat)
    requires Run(Empty, steps) && IsNewest(Result(Empty, steps), id)
    requires Result(Empty, steps).store.queue == map[] && Result(Empty, steps).history.discarded == {}
    ensures Occurrences(Result(Empty, steps).log, id) == 1
  {
    NewestIsNeverLost(steps, id);
  }

  /** The API handles a copy of the delivery. */
  predicate Ingests(steps: seq<Step>, id: nat) {
    Ingest(id) in steps
  }

  lemma {:induction false} RunLogs(w: World, steps: seq<Step>, id: nat)
    requires Run(w, steps)
    ensures id in LogIds(Result(w, steps).log) <==> id in LogIds(w.log) || Ingests(steps, id)
    decreases |steps|
  {
    if steps != [] {
      StepLogs(w, steps[0], id);
      assert steps == [steps[0]] + steps[1..];
      RunLogs(Next(w, steps[0]), steps[1..], id);
    }
  }

  lemma StepLogs(w: World, s: Step, id: nat)
    requires Enabled(w, s)
    ensures id in LogIds(Next(w, s).log) <==> id in LogIds(w.log) || s == Ingest(id)
  {
    if s.Ingest? {
      var e := Logged(s.id, w.history.recorded[s.id]);
      assert forall x :: x in w.log + [e] <==> x in w.log || x == e;
      assert e in w.log + [e];
    }
  }

  /** The log holds the deliveries of which the API handled a copy. */
  lemma TheLogIsWhatWasIngested(steps: seq<Step>, id: nat)
    requires Run(Empty, steps)
    ensures id in LogIds(Result(Empty, steps).log) <==> Ingests(steps, id)
  {
    RunLogs(Empty, steps, id);
  }

  /** Between two alarm passes no queued delivery is left without an alarm or an attempt that will see to it. */
  lemma NoDeliveryIsStranded(steps: seq<Step>, key: Key)
    requires Run(Empty, steps)
    requires Result(Empty, steps).run.None? && key in Result(Empty, steps).store.queue
    ensures IsCovered(Result(Empty, steps), key)
  {
    RunKeeps(Empty, steps);
  }

  lemma {:induction false} RunKeepsSends(w: World, steps: seq<Step>, id: nat)
    requires Inv(w) && SendsAgree(w, id) && WaitsAgree(w, id) && Run(w, steps)
    ensures SendsAgree(Result(w, steps), id) && WaitsAgree(Result(w, steps), id)
    decreases |steps|
  {
    if steps != [] {
      StepKeepsSends(w, steps[0], id);
      StepKeepsWaits(w, steps[0], id);
      StepKeeps(w, steps[0]);
      RunKeepsSends(Next(w, steps[0]), steps[1..], id);
    }
  }

  lemma {:induction false} RunKeepsAccounts(w: World, steps: seq<Step>, id: nat)
    requires Inv(w) && FirstAttempts(w) && HasBudget(w, id) && CopiesAccount(w, id) && Run(w, steps)
    ensures HasBudget(Result(w, steps), id)
    decreases |steps|
  {
    if steps != [] {
      StepKeepsAccounts(w, steps[0], id);
      StepKeepsFirstAttempts(w, steps[0]);
      StepKeeps(w, steps[0]);
      RunKeepsAccounts(Next(w, steps[0]), steps[1..], id);
    }
  }

  /**
   * However attempts overlap, a delivery is sent at most fifteen times and made to wait for at most 7,380,000
   * ms in all. A snapshot has no attempt but the alarm's: eight times, and 3,690,000 ms.
   */
  lemma SendsAreBounded(steps: seq<Step>, id: nat)
    requires Run(Empty, steps)
    ensures var w := Result(Empty, steps);
      && SendsOf(w, id) <= (if IsSnapshot(w, id) then 8 else 15)
      && WaitedOf(w, id) <= (if IsSnapshot(w, id) then 3_690_000 else 7_380_000)
  {
    TotalDelayIsBounded(MAX_ATTEMPTS - 1);
    RunKeepsAccounts(Empty, steps, id);
  }

  /**
   * The stored count never exceeds seven. A delivery is sent at most eight times, and made to wait for at most
   * 3,690,000 ms in all, until an alarm pass reads it while an attempt of it is in flight.
   */
  lemma RetriesAreBounded(steps: seq<Step>, id: nat)
    requires Run(Empty, steps)
    ensures var w := Result(Empty, steps);
      && (forall k <- w.store.queue :: w.store.queue[k].attempts <= 7)
      && (id !in w.history.overlapped ==> SendsOf(w, id) <= 8 && WaitedOf(w, id) <= 3_690_000)
  {
    RunKeeps(Empty, steps);
    TotalDelayIsBounded(MAX_ATTEMPTS - 1);
    RunKeepsSends(Empty, steps, id);
  }

  lemma ScheduleAfterUpdate(w: World, event: Event, now: nat)
    requires KeepsFirstUpdate(w) && (event.Editor? || event.Whiteboard?)
    ensures var w' := AfterRecord(w, event, now); var k := KeyOf(event, 0);
      && k in w'.store.queue && UpdatesOf(w', k) == UpdatesOf(w, k) + [now]
      && w'.store.queue[k] ==
           Delivery(w.nextId, event, 0, Some(DueTime(UpdatesOf(w', k))), Some(UpdatesOf(w', k)[0]))
  {
    assert KeyOf(event, 0) == KeyOf(event, w.nextId);
  }

  /** Right after an update the queue holds that update and nothing of the one it replaces but when that was queued. */
  lemma UpdatesReplaceTheSnapshot(steps: seq<Step>, event: Event, now: nat)
    requires Run(Empty, steps) && (event.Editor? || event.Whiteboard?)
    ensures var w := Result(Empty, steps); var w' := Next(w, Record(event, now)); var k := KeyOf(event, 0);
      && k in w'.store.queue && UpdatesOf(w', k) == UpdatesOf(w, k) + [now]
      && w'.store.queue[k] ==
           Delivery(w.nextId, event, 0, Some(DueTime(UpdatesOf(w', k))), Some(UpdatesOf(w', k)[0]))
  {
    RunKeeps(Empty, steps);
    ScheduleAfterUpdate(Result(Empty, steps), event, now);
  }

  /**
   * A queued snapshot is the last update of its key, and until it fails it is due two seconds after that
   * update but no later than ten seconds after the first one since the key was absent.
   */
  ghost predicate HoldsLastUpdate(w: World, key: Key)
    requires key in w.store.queue
  {
    var d, us := w.store.queue[key], UpdatesOf(w, key);
    && us != [] && IsNewest(w, d.id) && d.event == w.history.recorded[d.id]
    && d.queuedAt == Some(us[0])
    && (d.attempts == 0 ==> d.next == Some(Min(us[|us| - 1] + QUIET_MS, us[0] + MAX_WAIT_MS)))
  }

  lemma QueuedSnapshot(w: World, key: Key)
    requires Known(w) && NothingLost(w) && KeepsFirstUpdate(w) && KeepsSchedule(w)
    requires !key.SingleKey? && key in w.store.queue
    ensures HoldsLastUpdate(w, key)
  {
    assert IsRecorded(w.history, key, w.store.queue[key]);
  }

  /** In every reachable state, whatever older attempts, alarms and other events came in between. */
  lemma SnapshotScheduleInClosedForm(steps: seq<Step>, key: Key)
    requires Run(Empty, steps)
    ensures var w := Result(Empty, steps); key in w.store.queue && !key.SingleKey? ==> HoldsLastUpdate(w, key)
  {
    RunKeeps(Empty, steps);
    var w := Result(Empty, steps);
    if key in w.store.queue && !key.SingleKey? { QueuedSnapshot(w, key); }
  }

  /** The Worker queues the board for the API, but the ingest schema has no such event: none is ever logged. */
  lemma BoardsNeverReachTheLog(steps: seq<Step>, e: Logged)
    requires Run(Empty, steps) && e in Result(Empty, steps).log
    ensures !e.event.Whiteboard?
  {
    RunKeeps(Empty, steps);
  }

  /** So the newest board is still queued, or was discarded as that delivery: never delivered. */
  lemma NewestBoardIsQueuedOrDiscarded(steps: seq<Step>, id: nat)
    requires Run(Empty, steps) && IsNewest(Result(Empty, steps), id)
    requires Result(Empty, steps).history.recorded[id].Whiteboard?
    ensures var w := Result(Empty, steps);
      && id !in LogIds(w.log)
      && ((BoardKey in w.store.queue && w.store.queue[BoardKey].id == id
           && w.store.queue[BoardKey].event == w.history.recorded[id])
          || id in w.history.discarded)
  {
    RunKeeps(Empty, steps);
    NewestIsAccounted(Result(Empty, steps), id);
  }
}
