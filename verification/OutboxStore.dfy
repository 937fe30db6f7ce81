/**
 * The Durable Object's persistence queue and its one alarm (apps/realtime/src/index.ts), as a value and as
 * the object that updates it. Each function here is one run of storage operations between two fetches.
 */
module OutboxStore {
  import opened Numbers
  import opened Options

  const RETRY_BASE_MS: nat := 30_000
  const RETRY_MAX_MS: nat := 1_800_000
  const MAX_ATTEMPTS: nat := 8
  const QUIET_MS: nat := 2_000
  const MAX_WAIT_MS: nat := 10_000

  datatype Document = Code | Notes

  datatype Event =
    | Joined(user: string)
    | Left(user: string)
    | Chat(from: string, text: string)
    | ScreenShare(from: string, active: bool)
    | Editor(from: string, document: Document, content: string)
    | Whiteboard(from: string, board: seq<nat>)

  /** Editor documents and the board have one key each; every other event has its own. */
  datatype Key = EditorKey(document: Document) | BoardKey | SingleKey(id: nat)

  datatype Delivery = Delivery(id: nat, event: Event, attempts: nat, next: Option<nat>, queuedAt: Option<nat>)

  type Queue = map<Key, Delivery>

  datatype Store = Store(queue: Queue, alarm: Option<nat>)

  /** A delivery as it was read when its fetch was issued. */
  datatype Attempt = Attempt(key: Key, delivery: Delivery)

  datatype Outcome = Accepted | Rejected | Failed

  function KeyOf(event: Event, id: nat): Key {
    match event
    case Editor(_, document, _) => EditorKey(document)
    case Whiteboard(_, _) => BoardKey
    case _ => SingleKey(id)
  }

  // ---- Retry policy -------------------------------------------------------------------------------

  predicate IsRetryableStatus(status: int) {
    status >= 500 || status == 408 || status == 425 || status == 429
  }

  /** No status stands for a fetch that threw. */
  function Classify(status: Option<int>): Outcome {
    match status
    case None => Failed
    case Some(s) => if 200 <= s < 300 then Accepted else if IsRetryableStatus(s) then Failed else Rejected
  }

  function Pow2(n: nat): nat {
    if n == 0 then 1 else 2 * Pow2(n - 1)
  }

  function RetryDelay(attempts: nat): nat {
    Min(RETRY_BASE_MS * Pow2(if attempts == 0 then 0 else attempts - 1), RETRY_MAX_MS)
  }

  lemma {:induction false} Pow2Grows(m: nat, n: nat)
    requires m <= n
    ensures Pow2(m) <= Pow2(n)
  {
    if m < n { Pow2Grows(m, n - 1); }
  }

  /** The waits after the first seven failures, in milliseconds. */
  lemma BackoffTable()
    ensures RetryDelay(1) == 30_000 && RetryDelay(2) == 60_000 && RetryDelay(3) == 120_000
    ensures RetryDelay(4) == 240_000 && RetryDelay(5) == 480_000 && RetryDelay(6) == 960_000
    ensures RetryDelay(7) == 1_800_000
  {
    assert Pow2(1) == 2 && Pow2(2) == 4 && Pow2(3) == 8;
    assert Pow2(4) == 16 && Pow2(5) == 32 && Pow2(6) == 64;
  }

  /** Backing off never gets shorter and never exceeds half an hour. */
  lemma DelaysGrow(m: nat, n: nat)
    requires m <= n
    ensures RetryDelay(m) <= RetryDelay(n) <= RETRY_MAX_MS
  {
    Pow2Grows(if m == 0 then 0 else m - 1, if n == 0 then 0 else n - 1);
  }

  /** The waits scheduled after the first `n` failures. */
  function TotalDelay(n: nat): nat {
    if n == 0 then 0 else TotalDelay(n - 1) + RetryDelay(n)
  }

  /** All the waits a delivery can be given before it is discarded: 3,690,000 ms, reached by the seventh. */
  lemma {:induction false} TotalDelayIsBounded(n: nat)
    requires n < MAX_ATTEMPTS
    ensures TotalDelay(n) <= 3_690_000
    ensures n == MAX_ATTEMPTS - 1 ==> TotalDelay(n) == 3_690_000
  {
    assert Pow2(1) == 2 && Pow2(2) == 4 && Pow2(3) == 8;
    assert Pow2(4) == 16 && Pow2(5) == 32 && Pow2(6) == 64;
    assert TotalDelay(1) == 30_000 && TotalDelay(2) == 90_000 && TotalDelay(3) == 210_000;
    assert TotalDelay(4) == 450_000 && TotalDelay(5) == 930_000 && TotalDelay(6) == 1_890_000;
    assert TotalDelay(7) == 3_690_000;
  }

  // ---- The queue as a value -----------------------------------------------------------------------

  function ScheduledAt(alarm: Option<nat>, at: nat): Option<nat> {
    if alarm.None? || at < alarm.value then Some(at) else alarm
  }

  predicate IsCurrent(queue: Queue, a: Attempt) {
    a.key in queue && queue[a.key].id == a.delivery.id
  }

  function WithoutCurrent(queue: Queue, a: Attempt): Queue {
    if IsCurrent(queue, a) then queue - {a.key} else queue
  }

  /** Recording an event of its own: queued without a schedule, because its first attempt starts at once. */
  function Queued(s: Store, id: nat, event: Event): Store {
    s.(queue := s.queue[SingleKey(id) := Delivery(id, event, 0, None, None)])
  }

  /** Recording a snapshot: it replaces its predecessor and keeps the time the first of them was queued. */
  function Coalesced(s: Store, id: nat, event: Event, now: nat): Store {
    var key := KeyOf(event, id);
    var queuedAt := if key in s.queue && s.queue[key].queuedAt.Some? then s.queue[key].queuedAt.value else now;
    var next := Min(now + QUIET_MS, queuedAt + MAX_WAIT_MS);
    Store(s.queue[key := Delivery(id, event, 0, Some(next), Some(queuedAt))], ScheduledAt(s.alarm, next))
  }

  function Concluded(s: Store, a: Attempt, outcome: Outcome, now: nat): Store {
    var attempts := a.delivery.attempts + 1;
    if !outcome.Failed? || attempts >= MAX_ATTEMPTS then
      s.(queue := WithoutCurrent(s.queue, a))
    else if !IsCurrent(s.queue, a) then s
    else
      var next := now + RetryDelay(attempts);
      Store(s.queue[a.key := a.delivery.(attempts := attempts, next := Some(next))], ScheduledAt(s.alarm, next))
  }

  /** An entry without a schedule, or with schedule 0, is due at once. */
  predicate IsDue(d: Delivery, now: nat) {
    d.next.None? || d.next.value <= now
  }

  function Due(queue: Queue, order: seq<Key>, now: nat): (due: seq<Attempt>)
    requires forall k <- order :: k in queue
    ensures forall a <- due :: a.key in order && a.delivery == queue[a.key]
    ensures forall k <- order :: (queue[k].next.None? || queue[k].next.value <= now) <==> Attempt(k, queue[k]) in due
  {
    if order == [] then []
    else
      var k := order[|order| - 1];
      Due(queue, order[..|order| - 1], now) + if IsDue(queue[k], now) then [Attempt(k, queue[k])] else []
  }

  /** `storage.list` returns every entry once. */
  ghost predicate Lists(order: seq<Key>, queue: Queue) {
    && (forall k :: k in order <==> k in queue)
    && (forall i, j :: 0 <= i < j < |order| ==> order[i] != order[j])
  }

  function WakeTime(d: Delivery, now: nat): nat {
    if d.next.Some? then d.next.value else now + RETRY_BASE_MS
  }

  /** The alarm scheduleNextDelivery leaves: none for an empty queue, else the earliest wake-up. */
  ghost predicate IsRearmed(queue: Queue, now: nat, alarm: Option<nat>) {
    if |queue| == 0 then alarm.None?
    else
      && alarm.Some?
      && (forall k <- queue :: alarm.value <= WakeTime(queue[k], now))
      && (exists k <- queue :: alarm.value == WakeTime(queue[k], now))
  }

  /** A reset alarm wakes at the earliest schedule, or in thirty seconds if an entry without one comes earlier. */
  lemma RearmedIsTheEarliest(queue: Queue, now: nat, alarm: Option<nat>)
    ensures IsRearmed(queue, now, alarm) <==>
      && (alarm.None? <==> queue == map[])
      && (alarm.Some? ==>
            && (forall k <- queue :: queue[k].next.Some? ==> alarm.value <= queue[k].next.value)
            && (forall k <- queue :: queue[k].next.None? ==> alarm.value <= now + 30_000)
            && (exists k <- queue ::
                  queue[k].next == alarm || (queue[k].next.None? && alarm.value == now + 30_000)))
  {
    assert queue == map[] <==> |queue| == 0;
    if alarm.Some? {
      forall k <- queue
        ensures alarm.value == WakeTime(queue[k], now) <==>
          queue[k].next == alarm || (queue[k].next.None? && alarm.value == now + 30_000)
      {
      }
    }
  }

  // ---- The queue as the object updates it ---------------------------------------------------------

  class RoomOutbox {
    var queue: Queue
    var alarm: Option<nat>

    ghost function State(): Store
      reads this
    {
      Store(queue, alarm)
    }

    constructor ()
      ensures State() == Store(map[], None)
    {
      queue, alarm := map[], None;
    }

    /** The queueing half of record and applyWhiteboard; an attempt is returned when one starts at once. */
    method Record(id: nat, event: Event, now: nat) returns (started: Option<Attempt>)
      modifies this
      ensures KeyOf(event, id).SingleKey? ==>
        && State() == Queued(old(State()), id, event)
        && started == Some(Attempt(SingleKey(id), Delivery(id, event, 0, None, None)))
      ensures !KeyOf(event, id).SingleKey? ==> State() == Coalesced(old(State()), id, event, now) && started == None
    {
      var delivery := Delivery(id, event, 0, None, None);
      var key := KeyOf(event, id);
      if !key.SingleKey? {
        var queuedAt := now;
        if key in queue && queue[key].queuedAt.Some? { queuedAt := queue[key].queuedAt.value; }
        var nextAttemptAt := Min(now + QUIET_MS, queuedAt + MAX_WAIT_MS);
        queue := queue[key := delivery.(queuedAt := Some(queuedAt), next := Some(nextAttemptAt))];
        ScheduleAlarmAt(nextAttemptAt);
        return None;
      }
      queue := queue[key := delivery];
      return Some(Attempt(key, delivery));
    }

    /** deliver, after its fetch settled. */
    method Conclude(a: Attempt, status: Option<int>, now: nat)
      modifies this
      ensures State() == Concluded(old(State()), a, Classify(status), now)
    {
      var outcome := Classify(status);
      if !outcome.Failed? {
        DeleteDeliveryIfCurrent(a);
        return;
      }
      var attemptCount := a.delivery.attempts + 1;
      if attemptCount >= MAX_ATTEMPTS {
        DeleteDeliveryIfCurrent(a);
        return;
      }
      var nextAttemptAt := now + RetryDelay(attemptCount);
      if !IsCurrent(queue, a) { return; }
      queue := queue[a.key := a.delivery.(attempts := attemptCount, next := Some(nextAttemptAt))];
      ScheduleAlarmAt(nextAttemptAt);
    }

    method DeleteDeliveryIfCurrent(a: Attempt)
      modifies this`queue
      ensures queue == WithoutCurrent(old(queue), a)
    {
      if a.key in queue && queue[a.key].id == a.delivery.id {
        queue := queue - {a.key};
      }
    }

    method ScheduleAlarmAt(at: nat)
      modifies this`alarm
      ensures alarm == ScheduledAt(old(alarm), at)
      ensures alarm == Some(if old(alarm).Some? then Min(old(alarm).value, at) else at)
    {
      if alarm.None? || at < alarm.value { alarm := Some(at); }
    }

    /** The snapshot alarm() takes: firing clears the alarm, and the loop picks what is due at its start. */
    method DueDeliveries(order: seq<Key>, now: nat) returns (due: seq<Attempt>)
      requires Lists(order, queue)
      modifies this`alarm
      ensures alarm == None && due == Due(queue, order, now)
    {
      alarm := None;
      due := [];
      for i := 0 to |order|
        invariant alarm == None && due == Due(queue, order[..i], now)
      {
        assert order[..i + 1][..i] == order[..i];
        if IsDue(queue[order[i]], now) { due := due + [Attempt(order[i], queue[order[i]])]; }
      }
      assert order[..|order|] == order;
    }

    method ScheduleNextDelivery(now: nat)
      modifies this`alarm
      ensures IsRearmed(queue, now, alarm)
    {
      if |queue| == 0 {
        alarm := None;
        return;
      }
      var keys, earliest := queue.Keys, None;
      while keys != {}
        invariant keys <= queue.Keys
        invariant earliest.None? ==> keys == queue.Keys
        invariant earliest.Some? ==>
          && (forall k <- queue.Keys - keys :: earliest.value <= WakeTime(queue[k], now))
          && (exists k <- queue.Keys :: earliest.value == WakeTime(queue[k], now))
        decreases |keys|
      {
        var k :| k in keys;
        keys := keys - {k};
        earliest := ScheduledAt(earliest, WakeTime(queue[k], now));
      }
      assert queue.Keys != {};
      alarm := earliest;
    }
  }
}
