/**
 * What the retry policy does over whole runs of the queue (apps/realtime/src/index.ts): which statuses give a
 * delivery up, and when a delivery is sent. Statuses and times appear here as the plain numbers a caller sees.
 */
module Retries {
  import opened Numbers
  import opened Options
  import opened OutboxStore
  import opened Outbox

  // ---- Which statuses give a delivery up ----------------------------------------------------------

  predicate IsOk(status: Option<int>) {
    status.Some? && 200 <= status.value < 300
  }

  /** An answer that says trying again may help, or no answer. */
  predicate IsPassing(status: Option<int>) {
    status.Some? && !IsOk(status) ==>
      status.value >= 500 || status.value == 408 || status.value == 425 || status.value == 429
  }

  predicate IsFinal(status: Option<int>) {
    && status.Some? && !(200 <= status.value < 300) && status.value < 500
    && status.value != 408 && status.value != 425 && status.value != 429
  }

  /** The step settles an attempt of `id` with a final status, or its eighth in a row without success. */
  predicate GivesUpOn(w: World, s: Step, id: nat) {
    && s.Settle? && s.token in w.inflight && w.inflight[s.token].delivery.id == id
    && (IsFinal(s.status) || (!IsOk(s.status) && w.inflight[s.token].delivery.attempts == 7))
  }

  ghost predicate WasGivenUp(w: World, steps: seq<Step>, id: nat)
    requires Run(w, steps)
    decreases |steps|
  {
    steps != [] && (GivesUpOn(w, steps[0], id) || WasGivenUp(Next(w, steps[0]), steps[1..], id))
  }

  lemma StepDiscards(w: World, s: Step, id: nat)
    requires Enabled(w, s) && WithinBudget(w)
    ensures id in Next(w, s).history.discarded <==> id in w.history.discarded || GivesUpOn(w, s, id)
  {
  }

  lemma {:induction false} RunDiscards(w: World, steps: seq<Step>, id: nat)
    requires Run(w, steps) && WithinBudget(w)
    ensures id in Result(w, steps).history.discarded <==> id in w.history.discarded || WasGivenUp(w, steps, id)
    decreases |steps|
  {
    if steps != [] {
      StepDiscards(w, steps[0], id);
      StepStaysWithinBudget(w, steps[0]);
      RunDiscards(Next(w, steps[0]), steps[1..], id);
    }
  }

  /**
   * A delivery is discarded if and only if an attempt of it was answered with a status outside 200..299 that is
   * below 500 and not 408, 425 or 429, or had failed seven times before and fails again.
   */
  lemma DiscardedIff(steps: seq<Step>, id: nat)
    requires Run(Empty, steps)
    ensures id in Result(Empty, steps).history.discarded <==> WasGivenUp(Empty, steps, id)
  {
    RunDiscards(Empty, steps, id);
  }

  /** A copy that has failed n times has been sent n times, and once more while it is in flight. */
  ghost predicate CopiesWereSent(w: World) {
    && (forall k <- w.store.queue :: w.store.queue[k].attempts <= SendsOf(w, w.store.queue[k].id))
    && (forall t <- w.inflight :: w.inflight[t].delivery.attempts + 1 <= SendsOf(w, w.inflight[t].delivery.id))
    && (w.run.Some? ==> forall a <- w.run.value.due :: a.delivery.attempts <= SendsOf(w, a.delivery.id))
  }

  lemma RecordKeepsSent(w: World, event: Event, now: nat)
    requires Known(w) && CopiesWereSent(w)
    ensures CopiesWereSent(AfterRecord(w, event, now))
  {
    NothingOfTheNext(w);
    var w' := AfterRecord(w, event, now);
    assert forall id | id != w.nextId :: SendsOf(w', id) == SendsOf(w, id);
  }

  lemma ResumeKeepsSent(w: World)
    requires Enabled(w, Resume) && CopiesWereSent(w)
    ensures CopiesWereSent(AfterResume(w))
  {
    var w', due := AfterResume(w), w.run.value.due;
    assert due[0] in due && forall a <- due[1..] :: a in due;
    assert forall id :: SendsOf(w', id) == SendsOf(w, id) + if id == due[0].delivery.id then 1 else 0;
  }

  lemma SettleKeepsSent(w: World, token: nat, outcome: Outcome, now: nat)
    requires token in w.inflight && CopiesWereSent(w)
    ensures CopiesWereSent(AfterSettle(w, token, outcome, now))
  {
    var w' := AfterSettle(w, token, outcome, now);
    ConcludedTouchesItsOwn(w.store, w.inflight[token], outcome, now);
    assert forall id :: SendsOf(w', id) == SendsOf(w, id);
  }

  lemma FireKeepsSent(w: World, now: nat, order: seq<Key>)
    requires Enabled(w, Fire(now, order)) && CopiesWereSent(w)
    ensures CopiesWereSent(AfterFire(w, now, order))
  {
    assert forall id :: SendsOf(AfterFire(w, now, order), id) == SendsOf(w, id);
  }

  lemma StepKeepsSent(w: World, s: Step)
    requires Enabled(w, s) && Known(w) && CopiesWereSent(w)
    ensures CopiesWereSent(Next(w, s))
  {
    match s
    case Record(event, now) => RecordKeepsSent(w, event, now);
    case Fire(now, order) => FireKeepsSent(w, now, order);
    case Resume => ResumeKeepsSent(w);
    case Settle(token, status, now) => SettleKeepsSent(w, token, Classify(status), now);
    case _ => assert forall id :: SendsOf(Next(w, s), id) == SendsOf(w, id);
  }

  lemma {:induction false} RunKeepsSent(w: World, steps: seq<Step>)
    requires Run(w, steps) && Known(w) && CopiesWereSent(w)
    ensures Known(Result(w, steps)) && CopiesWereSent(Result(w, steps))
    decreases |steps|
  {
    if steps != [] {
      StepKeepsSent(w, steps[0]);
      StepKnows(w, steps[0]);
      RunKeepsSent(Next(w, steps[0]), steps[1..]);
    }
  }

  /** The API can log whatever is on its way to it, except a board. */
  lemma AllButBoardsCanBeLogged(steps: seq<Step>, token: nat)
    requires Run(Empty, steps) && token in Result(Empty, steps).inflight
    ensures var w := Result(Empty, steps); var d := w.inflight[token].delivery;
      Enabled(w, Ingest(d.id)) <==> !d.event.Whiteboard?
  {
    RunKeepsSent(Empty, steps);
    var w := Result(Empty, steps);
    assert IsRecorded(w.history, w.inflight[token].key, w.inflight[token].delivery);
  }

  ghost predicate DiscardedWereTried(w: World) {
    forall i <- w.history.discarded :: SendsOf(w, i) >= 8
  }

  lemma StepKeepsTried(w: World, s: Step)
    requires Enabled(w, s) && Inv(w) && CopiesWereSent(w) && DiscardedWereTried(w)
    requires s.Settle? ==> !IsFinal(s.status)
    requires forall i <- w.history.discarded :: i in w.history.recorded
    ensures DiscardedWereTried(Next(w, s))
    ensures forall i <- Next(w, s).history.discarded :: i in Next(w, s).history.recorded
  {
    var w' := Next(w, s);
    forall i <- w'.history.discarded
      ensures SendsOf(w', i) >= 8 && i in w'.history.recorded
    {
      StepDiscards(w, s, i);
      assert s.Settle? ==> IsRecorded(w.history, w.inflight[s.token].key, w.inflight[s.token].delivery);
    }
  }

  lemma {:induction false} RunKeepsTried(w: World, steps: seq<Step>)
    requires Run(w, steps) && Inv(w) && CopiesWereSent(w) && DiscardedWereTried(w)
    requires forall i <- w.history.discarded :: i in w.history.recorded
    requires forall s <- steps :: s.Settle? ==> !IsFinal(s.status)
    ensures DiscardedWereTried(Result(w, steps))
    decreases |steps|
  {
    if steps != [] {
      assert steps[0] in steps && forall s <- steps[1..] :: s in steps;
      StepKeepsTried(w, steps[0]);
      StepKeepsSent(w, steps[0]);
      StepKeeps(w, steps[0]);
      RunKeepsTried(Next(w, steps[0]), steps[1..]);
    }
  }

  /** While the API answers nothing final, a delivery that was discarded has been sent eight times. */
  lemma PassingFailuresAreRetried(steps: seq<Step>, id: nat)
    requires Run(Empty, steps) && id in Result(Empty, steps).history.discarded
    requires forall s <- steps :: s.Settle? ==> !IsFinal(s.status)
    ensures SendsOf(Result(Empty, steps), id) >= 8
  {
    RunKeepsTried(Empty, steps);
  }

  /**
   * What settling the attempt `a` makes of the queue: nothing if the entry is no longer the attempted delivery.
   * Otherwise the entry goes on success, on a final status and on the eighth failure; any other failure counts
   * and schedules it.
   */
  ghost predicate IsSettled(before: Queue, after: Queue, a: Attempt, status: Option<int>, now: nat) {
    if a.key !in before || before[a.key].id != a.delivery.id then after == before
    else if IsOk(status) || IsFinal(status) || a.delivery.attempts == 7 then
      after.Keys == before.Keys - {a.key} && forall k <- after :: after[k] == before[k]
    else
      var n := a.delivery.attempts + 1;
      && after.Keys == before.Keys && (forall k <- after :: k != a.key ==> after[k] == before[k])
      && after[a.key] ==
           Delivery(a.delivery.id, before[a.key].event, n, Some(now + RetryDelay(n)), before[a.key].queuedAt)
  }

  lemma ConcludedIsSettled(s: Store, a: Attempt, status: Option<int>, now: nat)
    requires a.delivery.attempts <= 7
    requires IsCurrent(s.queue, a) ==>
      s.queue[a.key].event == a.delivery.event && s.queue[a.key].queuedAt == a.delivery.queuedAt
    ensures IsSettled(s.queue, Concluded(s, a, Classify(status), now).queue, a, status, now)
  {
  }

  lemma CopiesAreUpToDate(w: World, token: nat)
    requires Inv(w) && token in w.inflight && IsCurrent(w.store.queue, w.inflight[token])
    ensures var a := w.inflight[token]; var d := w.store.queue[a.key];
      d.event == a.delivery.event && d.queuedAt == a.delivery.queuedAt
  {
    var a := w.inflight[token];
    assert IsRecorded(w.history, a.key, a.delivery) && IsRecorded(w.history, a.key, w.store.queue[a.key]);
    assert CopyMatches(w.store.queue, a);
  }

  lemma SettledInClosedForm(steps: seq<Step>, token: nat, status: Option<int>, now: nat)
    requires Run(Empty, steps) && Enabled(Result(Empty, steps), Settle(token, status, now))
    ensures var w := Result(Empty, steps); var w' := Next(w, Settle(token, status, now));
      IsSettled(w.store.queue, w'.store.queue, w.inflight[token], status, now)
  {
    RunKeeps(Empty, steps);
    var w := Result(Empty, steps);
    if IsCurrent(w.store.queue, w.inflight[token]) { CopiesAreUpToDate(w, token); }
    ConcludedIsSettled(w.store, w.inflight[token], status, now);
  }

  // ---- When a delivery is sent --------------------------------------------------------------------

  /** The time of the last step that settled an attempt of `id` with a passing failure. */
  ghost function LastFailure(w: World, steps: seq<Step>, id: nat, before: Option<nat>): Option<nat>
    requires Run(w, steps)
    decreases |steps|
  {
    if steps == [] then before
    else
      var s := steps[0];
      var fails := s.Settle? && w.inflight[s.token].delivery.id == id && !IsOk(s.status) && !IsFinal(s.status);
      LastFailure(Next(w, s), steps[1..], id, if fails then Some(s.now) else before)
  }

  function FailedAt(failedAt: map<nat, nat>, id: nat): Option<nat> {
    if id in failedAt then Some(failedAt[id]) else None
  }

  lemma StepNotesFailures(w: World, s: Step, id: nat)
    requires Enabled(w, s)
    ensures FailedAt(Next(w, s).history.failedAt, id) ==
      if s.Settle? && w.inflight[s.token].delivery.id == id && !IsOk(s.status) && !IsFinal(s.status) then Some(s.now)
      else FailedAt(w.history.failedAt, id)
  {
  }

  lemma {:induction false} RunNotesFailures(w: World, steps: seq<Step>, id: nat)
    requires Run(w, steps)
    ensures FailedAt(Result(w, steps).history.failedAt, id)
      == LastFailure(w, steps, id, FailedAt(w.history.failedAt, id))
    decreases |steps|
  {
    if steps != [] {
      StepNotesFailures(w, steps[0], id);
      RunNotesFailures(Next(w, steps[0]), steps[1..], id);
    }
  }

  /** An entry that failed waits for the backoff of its count; an event of its own has no schedule before. */
  predicate IsBackedOff(k: Key, d: Delivery, failedAt: map<nat, nat>) {
    && (d.attempts > 0 ==> d.id in failedAt && d.next == Some(failedAt[d.id] + RetryDelay(d.attempts)))
    && (d.attempts == 0 && k.SingleKey? ==> d.next.None?)
  }

  ghost predicate BacksOff(w: World) {
    forall k <- w.store.queue :: IsBackedOff(k, w.store.queue[k], w.history.failedAt)
  }

  lemma RecordKeepsBackoff(w: World, event: Event, now: nat)
    requires BacksOff(w)
    ensures BacksOff(AfterRecord(w, event, now))
  {
    var w' := AfterRecord(w, event, now);
    forall k <- w'.store.queue
      ensures IsBackedOff(k, w'.store.queue[k], w'.history.failedAt)
    {
      assert k != KeyOf(event, w.nextId) ==> k in w.store.queue && w'.store.queue[k] == w.store.queue[k];
    }
  }

  lemma SettleKeepsBackoff(w: World, token: nat, outcome: Outcome, now: nat)
    requires token in w.inflight && Known(w) && BacksOff(w)
    ensures BacksOff(AfterSettle(w, token, outcome, now))
  {
    var w', a := AfterSettle(w, token, outcome, now), w.inflight[token];
    ConcludedTouchesItsOwn(w.store, a, outcome, now);
    forall k <- w'.store.queue
      ensures IsBackedOff(k, w'.store.queue[k], w'.history.failedAt)
    {
      if k in w.store.queue && w.store.queue[k].id == a.delivery.id { NoOtherKey(w, token, k); }
    }
  }

  lemma StepKeepsBackoff(w: World, s: Step)
    requires Enabled(w, s) && Known(w) && BacksOff(w)
    ensures BacksOff(Next(w, s))
  {
    match s
    case Record(event, now) => RecordKeepsBackoff(w, event, now);
    case Settle(token, status, now) => SettleKeepsBackoff(w, token, Classify(status), now);
    case _ =>
  }

  /** Sent at `r.at`, an attempt is not early: not before its backoff, or before its updates made it due. */
  ghost predicate IsOnTime(r: Reading, a: Attempt) {
    && (a.delivery.attempts > 0 ==>
          a.delivery.id in r.failedAt && r.failedAt[a.delivery.id] + RetryDelay(a.delivery.attempts) <= r.at)
    && (a.delivery.attempts == 0 && !a.key.SingleKey? ==>
          && a.key in r.updates && r.updates[a.key] != []
          && Min(r.updates[a.key][|r.updates[a.key]| - 1] + 2_000, r.updates[a.key][0] + 10_000) <= r.at)
  }

  ghost predicate SendsOnTime(w: World) {
    w.run.Some? ==> forall a <- w.run.value.due :: IsOnTime(w.history.reading, a)
  }

  /** The alarm's snapshot holds exactly the entries without a schedule and those whose time has come. */
  lemma SnapshotIsExact(w: World, now: nat, order: seq<Key>)
    requires Enabled(w, Fire(now, order))
    ensures var w', q := Next(w, Fire(now, order)), w.store.queue;
      && (forall a <- w'.run.value.due :: a.key in q && a.delivery == q[a.key])
      && (forall k <- q :: Attempt(k, q[k]) in w'.run.value.due <==> q[k].next.None? || q[k].next.value <= now)
  {
  }

  lemma FireSendsOnTime(w: World, now: nat, order: seq<Key>)
    requires Enabled(w, Fire(now, order)) && KeepsSchedule(w) && BacksOff(w)
    ensures SendsOnTime(AfterFire(w, now, order))
  {
    SnapshotIsExact(w, now, order);
    var w' := AfterFire(w, now, order);
    forall a <- w'.run.value.due
      ensures IsOnTime(w'.history.reading, a)
    {
      var d := w.store.queue[a.key];
      assert Attempt(a.key, d) == a;
      assert d.next.None? || d.next.value <= now;
    }
  }

  lemma StepSendsOnTime(w: World, s: Step)
    requires Enabled(w, s) && KeepsSchedule(w) && BacksOff(w) && SendsOnTime(w)
    ensures SendsOnTime(Next(w, s))
  {
    match s
    case Fire(now, order) => FireSendsOnTime(w, now, order);
    case Resume => assert forall a <- w.run.value.due[1..] :: a in w.run.value.due;
    case _ =>
  }

  lemma {:induction false} RunSendsOnTime(w: World, steps: seq<Step>)
    requires Run(w, steps) && Inv(w) && BacksOff(w) && SendsOnTime(w)
    ensures BacksOff(Result(w, steps)) && SendsOnTime(Result(w, steps))
    decreases |steps|
  {
    if steps != [] {
      StepSendsOnTime(w, steps[0]);
      StepKeepsBackoff(w, steps[0]);
      StepKeeps(w, steps[0]);
      RunSendsOnTime(Next(w, steps[0]), steps[1..]);
    }
  }

  /**
   * Whatever the alarm sends next, the alarm fired no earlier than the delivery's last failure plus the backoff
   * of its count; and a snapshot that has not failed is not sent before two seconds after its last update or
   * ten after its first, whichever comes sooner.
   */
  lemma NothingIsSentEarly(steps: seq<Step>)
    requires Run(Empty, steps) && Enabled(Result(Empty, steps), Resume)
    ensures var w := Result(Empty, steps);
      IsOnTime(w.history.reading, w.run.value.due[0])
  {
    RunSendsOnTime(Empty, steps);
    var due := Result(Empty, steps).run.value.due;
    assert due[0] in due;
  }

  /** Whether a queued delivery is to be sent: by its last failure if it failed, else by its updates if it has any. */
  ghost predicate IsToBeSent(w: World, key: Key, d: Delivery, last: Option<nat>, now: nat) {
    var us := UpdatesOf(w, key);
    if d.attempts > 0 then last.Some? && last.value + RetryDelay(d.attempts) <= now
    else key.SingleKey? || (us != [] && Min(us[|us| - 1] + 2_000, us[0] + 10_000) <= now)
  }

  lemma DueIsToBeSent(w: World, key: Key, now: nat)
    requires KeepsSchedule(w) && BacksOff(w) && key in w.store.queue
    ensures var d := w.store.queue[key];
      (d.next.None? || d.next.value <= now) <==> IsToBeSent(w, key, d, FailedAt(w.history.failedAt, d.id), now)
  {
    assert IsBackedOff(key, w.store.queue[key], w.history.failedAt);
  }

  /** When the alarm fires it takes exactly those entries, with the failures counted off the steps before it. */
  lemma TheAlarmTakesWhatIsDue(steps: seq<Step>, now: nat, order: seq<Key>, key: Key)
    requires Run(Empty, steps) && Enabled(Result(Empty, steps), Fire(now, order))
    requires key in Result(Empty, steps).store.queue
    ensures var w := Result(Empty, steps); var d := w.store.queue[key];
      Attempt(key, d) in Next(w, Fire(now, order)).run.value.due <==>
        IsToBeSent(w, key, d, LastFailure(Empty, steps, d.id, None), now)
  {
    RunSendsOnTime(Empty, steps);
    RunKeeps(Empty, steps);
    var w := Result(Empty, steps);
    RunNotesFailures(Empty, steps, w.store.queue[key].id);
    SnapshotIsExact(w, now, order);
    DueIsToBeSent(w, key, now);
  }
}
