/**
 * How fifteen sends of one delivery come about (apps/realtime/src/index.ts): the alarm reads it while its first
 * attempt is in flight and retries it seven times; then that attempt fails and sets the count back to one.
 */
module LateFailures {
  import opened Options
  import opened OutboxStore
  import opened Outbox

  lemma {:induction false} RunConcat(w: World, a: seq<Step>, b: seq<Step>)
    requires Run(w, a) && Run(Result(w, a), b)
    ensures Run(w, a + b) && Result(w, a + b) == Result(Result(w, a), b)
    decreases |a|
  {
    if a == [] {
      assert a + b == b;
    } else {
      assert (a + b)[0] == a[0] && (a + b)[1..] == a[1..] + b;
      RunConcat(Next(w, a[0]), a[1..], b);
    }
  }

  lemma RunOneMore(w: World, steps: seq<Step>, s: Step)
    requires Run(w, steps) && Enabled(Result(w, steps), s)
    ensures Run(w, steps + [s]) && Result(w, steps + [s]) == Next(Result(w, steps), s)
  {
    assert [s][1..] == [];
    assert Run(Next(Result(w, steps), s), []);
    RunConcat(w, steps, [s]);
  }

  /** Delivery 0 alone is queued and has failed n times; its first attempt may still be in flight. */
  ghost predicate IsRetrying(w: World, n: nat, sends: nat, first: bool) {
    var key := SingleKey(0);
    && w.store.queue.Keys == {key} && w.store.queue[key].id == 0 && w.store.queue[key].attempts == n
    && w.store.queue[key].next.Some? && w.store.alarm.Some? && w.store.alarm.value <= w.store.queue[key].next.value
    && w.run.None? && w.inflight.Keys == (if first then {0} else {}) && w.nextToken > 0
    && (first ==> w.inflight[0].key == key && w.inflight[0].delivery.id == 0 && w.inflight[0].delivery.attempts == 0)
    && SendsOf(w, 0) == sends
  }

  lemma OnlyOneIsDue(w: World, n: nat, sends: nat, first: bool)
    requires IsRetrying(w, n, sends, first)
    ensures var key := SingleKey(0); var now := w.store.queue[key].next.value;
      Enabled(w, Fire(now, [key])) && Due(w.store.queue, [key], now) == [Attempt(key, w.store.queue[key])]
  {
    var key := SingleKey(0);
    assert forall k :: k in w.store.queue <==> k in w.store.queue.Keys;
    assert [key][..0] == [] && [] + [Attempt(key, w.store.queue[key])] == [Attempt(key, w.store.queue[key])];
  }

  /** The alarm's pass over that queue, up to the fetch. */
  lemma FireAndResume(w: World, n: nat, sends: nat, first: bool) returns (steps: seq<Step>)
    requires IsRetrying(w, n, sends, first)
    ensures Run(w, steps)
    ensures var w', key := Result(w, steps), SingleKey(0);
      && w'.store == Store(w.store.queue, None) && w'.run == Some(AlarmRun([], Some(w.nextToken)))
      && w'.inflight == w.inflight[w.nextToken := Attempt(key, w.store.queue[key])]
      && w'.nextToken == w.nextToken + 1 && SendsOf(w', 0) == sends + 1
  {
    var key := SingleKey(0);
    var fire := Fire(w.store.queue[key].next.value, [key]);
    OnlyOneIsDue(w, n, sends, first);
    assert [Attempt(key, w.store.queue[key])][1..] == [];
    RunOneMore(w, [], fire);
    RunOneMore(w, [] + [fire], Resume);
    steps := [] + [fire] + [Resume];
  }

  /** A pass whose fetch fails. */
  lemma OneMoreRetry(w: World, n: nat, sends: nat, first: bool) returns (steps: seq<Step>)
    requires IsRetrying(w, n, sends, first) && n + 1 < MAX_ATTEMPTS
    ensures Run(w, steps) && IsRetrying(Result(w, steps), n + 1, sends + 1, first)
  {
    var now := w.store.queue[SingleKey(0)].next.value;
    var pass := FireAndResume(w, n, sends, first);
    var end := PassFails(Result(w, pass), w.nextToken, n, now);
    RunConcat(w, pass, end);
    steps := pass + end;
    assert Result(w, steps).inflight == w.inflight;
  }

  lemma PassFails(w: World, token: nat, n: nat, now: nat) returns (steps: seq<Step>)
    requires w.run == Some(AlarmRun([], Some(token))) && token in w.inflight && n + 1 < MAX_ATTEMPTS
    requires w.store.queue.Keys == {SingleKey(0)}
    requires w.inflight[token] == Attempt(SingleKey(0), w.store.queue[SingleKey(0)])
    requires w.store.queue[SingleKey(0)].attempts == n
    ensures Run(w, steps)
    ensures var w', d := Result(w, steps), w.store.queue[SingleKey(0)]; var next := now + RetryDelay(n + 1);
      && w'.store == Store(map[SingleKey(0) := d.(attempts := n + 1, next := Some(next))], Some(next))
      && w'.run.None? && w'.inflight == w.inflight - {token} && w'.nextToken == w.nextToken
      && SendsOf(w', d.id) == SendsOf(w, d.id)
  {
    var next := now + RetryDelay(n + 1);
    var fails, finish := Settle(token, None, now), Finish(now, Some(next));
    FailureIsStored(w, token, n, now);
    RunOneMore(w, [], fails);
    RunOneMore(w, [] + [fails], finish);
    steps := [] + [fails] + [finish];
  }

  lemma FailureIsStored(w: World, token: nat, n: nat, now: nat)
    requires w.run == Some(AlarmRun([], Some(token))) && token in w.inflight && n + 1 < MAX_ATTEMPTS
    requires w.store.queue.Keys == {SingleKey(0)}
    requires w.inflight[token] == Attempt(SingleKey(0), w.store.queue[SingleKey(0)])
    requires w.store.queue[SingleKey(0)].attempts == n
    ensures var w', d := AfterSettle(w, token, Failed, now), w.store.queue[SingleKey(0)];
      var next := now + RetryDelay(n + 1);
      && w'.store.queue == map[SingleKey(0) := d.(attempts := n + 1, next := Some(next))]
      && w'.run == Some(AlarmRun([], None)) && w'.inflight == w.inflight - {token}
      && w'.nextToken == w.nextToken && SendsOf(w', d.id) == SendsOf(w, d.id)
      && IsRearmed(w'.store.queue, now, Some(next))
  {
    RetryIsStored(w, token, n, now);
    assert SingleKey(0) in AfterSettle(w, token, Failed, now).store.queue;
  }

  lemma RetryIsStored(w: World, token: nat, n: nat, now: nat)
    requires token in w.inflight && n + 1 < MAX_ATTEMPTS
    requires var a := w.inflight[token];
      a.key in w.store.queue && w.store.queue[a.key].id == a.delivery.id && a.delivery.attempts == n
    ensures var w', a := AfterSettle(w, token, Failed, now), w.inflight[token]; var next := now + RetryDelay(n + 1);
      && w'.store.queue == w.store.queue[a.key := a.delivery.(attempts := n + 1, next := Some(next))]
      && w'.store.alarm == ScheduledAt(w.store.alarm, next)
      && SendsOf(w', a.delivery.id) == SendsOf(w, a.delivery.id)
  {
  }

  lemma {:induction false} Retries(w: World, n: nat, sends: nat, first: bool, more: nat) returns (steps: seq<Step>)
    requires IsRetrying(w, n, sends, first) && n + more < MAX_ATTEMPTS
    ensures Run(w, steps) && IsRetrying(Result(w, steps), n + more, sends + more, first)
    decreases more
  {
    steps := [];
    if more > 0 {
      var once := OneMoreRetry(w, n, sends, first);
      var rest := Retries(Result(w, once), n + 1, sends + 1, first, more - 1);
      RunConcat(w, once, rest);
      steps := once + rest;
    }
  }

  /** The first attempt fails at last, and sets the count back to one. */
  lemma FirstFailsLate(w: World, n: nat, sends: nat) returns (s: Step)
    requires IsRetrying(w, n, sends, true)
    ensures Enabled(w, s) && IsRetrying(Next(w, s), 1, sends, false)
  {
    s := Settle(0, None, w.store.alarm.value);
    RetryIsStored(w, 0, 0, w.store.alarm.value);
  }

  lemma TwoAreDue(queue: Queue, key: Key, other: Key, now: nat)
    requires key in queue && other in queue && IsDue(queue[key], now) && IsDue(queue[other], now)
    ensures Due(queue, [key] + [other], now) == [Attempt(key, queue[key])] + [Attempt(other, queue[other])]
  {
    assert [key][..0] == [] && ([key] + [other])[..1] == [key];
    assert Due(queue, [key], now) == [] + [Attempt(key, queue[key])];
    assert [] + [Attempt(key, queue[key])] == [Attempt(key, queue[key])];
  }

  lemma BothAreRecorded(chat: Event, edit: Event)
    requires chat.Chat? && edit.Editor?
    ensures var w, key := AfterRecord(AfterRecord(Empty, chat, 0), edit, 0), SingleKey(0);
      var d, e := Delivery(0, chat, 0, None, None), Delivery(1, edit, 0, Some(QUIET_MS), Some(0));
      && w.store == Store(map[key := d, EditorKey(edit.document) := e], Some(QUIET_MS))
      && w.run.None? && w.inflight == map[0 := Attempt(key, d)] && w.nextToken == 1 && SendsOf(w, 0) == 1
  {
  }

  /** A chat message and an edit are recorded, and the alarm that the edit set reads both. */
  lemma AlarmReadsBoth(chat: Event, edit: Event) returns (steps: seq<Step>)
    requires chat.Chat? && edit.Editor?
    ensures Run(Empty, steps)
    ensures var w, key, other := Result(Empty, steps), SingleKey(0), EditorKey(edit.document);
      var d, e := Delivery(0, chat, 0, None, None), Delivery(1, edit, 0, Some(QUIET_MS), Some(0));
      && IsReading(w, other, d, e, [Attempt(key, d)] + [Attempt(other, e)], 1)
      && w.store.alarm.None? && w.nextToken == 1
  {
    var key, other := SingleKey(0), EditorKey(edit.document);
    var w := AfterRecord(AfterRecord(Empty, chat, 0), edit, 0);
    BothAreRecorded(chat, edit);
    TwoAreDue(w.store.queue, key, other, QUIET_MS);
    assert forall k :: k in [key] + [other] <==> k in w.store.queue;
    RunOneMore(Empty, [], Record(chat, 0));
    RunOneMore(Empty, [] + [Record(chat, 0)], Record(edit, 0));
    steps := [] + [Record(chat, 0)] + [Record(edit, 0)];
    RunOneMore(Empty, steps, Fire(QUIET_MS, [key] + [other]));
    steps := steps + [Fire(QUIET_MS, [key] + [other])];
  }

  /** What that pass starts from and, after the message was sent again and failed, goes on from. */
  ghost predicate IsReading(w: World, other: Key, d: Delivery, e: Delivery, rest: seq<Attempt>, sends: nat) {
    var key := SingleKey(0);
    && other.EditorKey? && d.id == 0 && e.id == 1
    && w.store.queue == map[key := d, other := e] && w.run == Some(AlarmRun(rest, None))
    && w.inflight.Keys == {0} && w.inflight[0].key == key && w.inflight[0].delivery.id == 0
    && w.inflight[0].delivery.attempts == 0 && SendsOf(w, 0) == sends
  }

  lemma MessageFailsAgain(w: World, other: Key, d: Delivery, e: Delivery) returns (steps: seq<Step>)
    requires IsReading(w, other, d, e, [Attempt(SingleKey(0), d)] + [Attempt(other, e)], 1)
    requires w.store.alarm.None? && w.nextToken == 1 && d.attempts == 0
    ensures Run(w, steps)
    ensures var w' := Result(w, steps); var next := QUIET_MS + RetryDelay(1);
      && IsReading(w', other, d.(attempts := 1, next := Some(next)), e, [Attempt(other, e)], 2)
      && w'.store.alarm == Some(next) && w'.nextToken == 2
  {
    var fails := Settle(1, None, QUIET_MS);
    ResumeTakesTheMessage(w, other, d, e);
    RetryIsStored(AfterResume(w), 1, 0, QUIET_MS);
    RunOneMore(w, [], Resume);
    RunOneMore(w, [] + [Resume], fails);
    steps := [] + [Resume] + [fails];
  }

  lemma ResumeTakesTheMessage(w: World, other: Key, d: Delivery, e: Delivery)
    requires IsReading(w, other, d, e, [Attempt(SingleKey(0), d)] + [Attempt(other, e)], 1) && w.nextToken == 1
    ensures var w' := AfterResume(w);
      && w'.store == w.store && w'.run == Some(AlarmRun([Attempt(other, e)], Some(1))) && w'.nextToken == 2
      && w'.inflight == w.inflight[1 := Attempt(SingleKey(0), d)] && SendsOf(w', 0) == 2
      && w'.inflight - {1} == w.inflight
  {
    assert w.run.value.due[1..] == [Attempt(other, e)];
  }

  lemma EditIsRejected(w: World, other: Key, d: Delivery, e: Delivery) returns (steps: seq<Step>)
    requires IsReading(w, other, d, e, [Attempt(other, e)], 2)
    requires w.store.alarm == d.next && d.next.Some? && w.nextToken == 2 && d.attempts == 1
    ensures Run(w, steps) && IsRetrying(Result(w, steps), 1, 2, true)
  {
    var rejected, finish := Settle(2, Some(400), QUIET_MS), Finish(QUIET_MS, d.next);
    ResumeTakesTheEdit(w, other, d, e);
    RejectedLeavesOne(AfterResume(w), other, d, e);
    RunOneMore(w, [], Resume);
    RunOneMore(w, [] + [Resume], rejected);
    RunOneMore(w, [] + [Resume] + [rejected], finish);
    steps := [] + [Resume] + [rejected] + [finish];
  }

  lemma ResumeTakesTheEdit(w: World, other: Key, d: Delivery, e: Delivery)
    requires IsReading(w, other, d, e, [Attempt(other, e)], 2) && w.nextToken == 2
    ensures var w' := AfterResume(w);
      && w'.store == w.store && w'.run == Some(AlarmRun([], Some(2))) && w'.nextToken == 3
      && w'.inflight.Keys == {0, 2} && w'.inflight[2] == Attempt(other, e) && w'.inflight[0] == w.inflight[0]
      && SendsOf(w', 0) == 2
  {
    assert w.run.value.due[1..] == [];
  }

  lemma RejectedLeavesOne(w: World, other: Key, d: Delivery, e: Delivery)
    requires other.EditorKey? && d.id == 0 && e.id == 1 && d.next.Some? && d.attempts == 1
    requires w.store == Store(map[SingleKey(0) := d, other := e], d.next) && w.run == Some(AlarmRun([], Some(2)))
    requires w.inflight.Keys == {0, 2} && w.inflight[2] == Attempt(other, e)
    ensures var w' := AfterSettle(w, 2, Rejected, QUIET_MS);
      && w'.store == Store(map[SingleKey(0) := d], d.next) && w'.run == Some(AlarmRun([], None))
      && w'.inflight.Keys == {0} && w'.inflight[0] == w.inflight[0]
      && SendsOf(w', 0) == SendsOf(w, 0) && w'.nextToken == w.nextToken
      && IsRearmed(w'.store.queue, QUIET_MS, d.next)
  {
    var w' := AfterSettle(w, 2, Rejected, QUIET_MS);
    assert w'.store.queue == map[SingleKey(0) := d];
    assert SingleKey(0) in w'.store.queue;
  }

  /** Fifteen sends are reached: seven of the alarm's beside the first attempt, and seven more once that fails. */
  lemma FifteenSendsHappen(chat: Event, edit: Event) returns (steps: seq<Step>)
    requires chat.Chat? && edit.Editor?
    ensures Run(Empty, steps) && SendsOf(Result(Empty, steps), 0) == 15
  {
    var d, e := Delivery(0, chat, 0, None, None), Delivery(1, edit, 0, Some(QUIET_MS), Some(0));
    steps := AlarmReadsBoth(chat, edit);
    var more := MessageFailsAgain(Result(Empty, steps), EditorKey(edit.document), d, e);
    RunConcat(Empty, steps, more);
    steps := steps + more;
    d := d.(attempts := 1, next := Some(QUIET_MS + RetryDelay(1)));
    more := EditIsRejected(Result(Empty, steps), EditorKey(edit.document), d, e);
    RunConcat(Empty, steps, more);
    steps := steps + more;
    more := Retries(Result(Empty, steps), 1, 2, true, 6);
    RunConcat(Empty, steps, more);
    steps := steps + more;
    var fails := FirstFailsLate(Result(Empty, steps), 7, 8);
    RunOneMore(Empty, steps, fails);
    steps := steps + [fails];
    more := Retries(Result(Empty, steps), 1, 8, false, 6);
    RunConcat(Empty, steps, more);
    steps := steps + more;
    more := FireAndResume(Result(Empty, steps), 7, 14, false);
    RunConcat(Empty, steps, more);
    steps := steps + more;
  }
}
