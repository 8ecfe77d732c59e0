/** The key-custody state of server.js as values: the published `state`, the
    broadcast events, the timers, and the invariants that every handler of the
    server keeps. */
module Custody {
  import opened Common
  import opened Reservations

  /** server.js's `state`: what /state and /switch reply with and what every
      broadcast carries. The key is present, taken (neither flag), or missing. */
  datatype State = State(keyPresent: bool, keyMissing: bool, keyMissingSince: Option<int>, queue: seq<Entry>, debugMode: bool)

  /** A message broadcast with `io.emit('message', …)`, with the state as it was when
      it went out. */
  datatype Event =
    | KeyTaken(state: State)
    | KeyReturned(state: State)
    | KeyWentMissing(state: State)
    | ReservationQueued(state: State)
    | ReservationRemoved(state: State, success: bool)

  /** The HELLO message a new connection receives (sent to that socket only). */
  datatype Hello = Hello(state: State, clientId: string)

  /** What a pending timer calls when it fires. */
  datatype Callback =
    | WentMissing
    | MissingMail
    | QueueExpired(clientId: string)
    | ConnectionCleanup(clientId: string, socketId: string)

  /** A scheduled callback and the time it is due. */
  datatype Timer = Timer(callback: Callback, due: int)

  /** The timer service: the callbacks that setTimeout has scheduled and that have
      neither fired nor been cancelled with clearTimeout, by handle. Every handle
      is issued once. */
  datatype Clock = Clock(pending: map<nat, Timer>, next: nat) {
    /** setTimeout: schedules `t` under the handle `next`. */
    function Arm(t: Timer): (r: Clock)
      ensures next in r.pending && r.pending[next] == t && r.next > next
      ensures HandlesIssued() ==> r.HandlesIssued() && r.Cancel(next).pending == pending
    {
      Clock(pending[next := t], next + 1)
    }

    /** clearTimeout, and also what firing does to the timer that fires. */
    function Cancel(h: nat): (r: Clock)
      ensures h !in r.pending && r.next == next && r.pending.Keys == pending.Keys - {h}
      ensures h !in pending ==> r == this
      ensures HandlesIssued() ==> r.HandlesIssued()
    {
      Clock(pending - {h}, next)
    }

    /** clearTimeout leaves every other timer as it was: callback and due time. */
    lemma CancelKeepsOthers(h: nat)
      ensures forall k | k in Cancel(h).pending :: Cancel(h).pending[k] == pending[k]
    {
    }

    predicate HandlesIssued() {
      forall h | h in pending :: h < next
    }
  }

  /** Present excludes missing and a take time; the missing time is set exactly while
      the key is missing; a missing key was taken. */
  predicate KeyInvariant(s: State, keyTakenOn: Option<int>) {
    && (s.keyPresent ==> !s.keyMissing && keyTakenOn.None?)
    && (s.keyMissing <==> s.keyMissingSince.Some?)
    && (s.keyMissing ==> keyTakenOn.Some?)
  }

  /** The missing check runs only while the key is taken and not yet missing, the mail
      timer only while it is missing, both under `timerMissing`; a taken key with a
      take time always has its missing check armed. `timerMissing` may still name a
      timer that has already fired or been cancelled. */
  predicate MissingTimerInvariant(s: State, keyTakenOn: Option<int>, timerMissing: Option<nat>, c: Clock) {
    && (forall h | h in c.pending && c.pending[h].callback == WentMissing ::
          timerMissing == Some(h) && !s.keyPresent && !s.keyMissing && keyTakenOn.Some?)
    && (forall h | h in c.pending && c.pending[h].callback == MissingMail ::
          timerMissing == Some(h) && s.keyMissing)
    && (!s.keyPresent && !s.keyMissing && keyTakenOn.Some? ==>
          timerMissing.Some? && timerMissing.value in c.pending && c.pending[timerMissing.value].callback == WentMissing)
  }

  /** The queue timer exists exactly while the key is present and somebody waits; it
      belongs to the head and is due when the head's hold expires; no other queue
      timer is pending. */
  predicate QueueTimerInvariant(s: State, timerQueue: Option<nat>, c: Clock) {
    && (timerQueue.Some? <==> s.keyPresent && |s.queue| > 0)
    && (timerQueue.Some? ==>
          && timerQueue.value in c.pending
          && c.pending[timerQueue.value].callback == QueueExpired(s.queue[0].clientId)
          && Some(c.pending[timerQueue.value].due) == s.queue[0].expires)
    && (forall h | h in c.pending && c.pending[h].callback.QueueExpired? :: timerQueue == Some(h))
  }

  /** The queue as every handler leaves it. */
  predicate QueueSettled(s: State, timerQueue: Option<nat>, c: Clock, queueTimeout: int) {
    && NoDuplicates(s.queue)
    && ExpiryShape(s.queue, s.keyPresent, queueTimeout)
    && QueueTimerInvariant(s, timerQueue, c)
  }

  /** What updateQueueTimer needs to find: `timerQueue`, when set, names the one pending
      queue timer, and a hold the key still backs has its timer. */
  predicate QueueTimerTracked(s: State, timerQueue: Option<nat>, c: Clock) {
    && (timerQueue.Some? ==> timerQueue.value in c.pending && c.pending[timerQueue.value].callback.QueueExpired?)
    && (timerQueue.Some? && |s.queue| > 0 && s.queue[0].expires.Some? ==>
          c.pending[timerQueue.value] == Timer(QueueExpired(s.queue[0].clientId), s.queue[0].expires.value))
    && (forall h | h in c.pending && c.pending[h].callback.QueueExpired? :: timerQueue == Some(h))
    && (s.keyPresent && |s.queue| > 0 && s.queue[0].expires.Some? ==> timerQueue.Some?)
  }

  /** The condition under which updateQueueTimer deletes the queue timer as obsolete. */
  predicate QueueTimerObsolete(s: State, timerQueue: Option<nat>) {
    timerQueue.Some? && (!s.keyPresent || |s.queue| < 1 || s.queue[0].expires.None?)
  }

  /** The condition under which updateQueueTimer stamps the head and arms a timer. */
  predicate HeadNeedsHold(s: State) {
    s.keyPresent && |s.queue| > 0 && s.queue[0].expires.None?
  }

  /** `timerQueue` and the timers after updateQueueTimer runs on `s`. */
  function QueueTimerUpdate(s: State, timerQueue: Option<nat>, c: Clock, now: int, queueTimeout: int): (r: (Option<nat>, Clock))
    ensures HeadNeedsHold(s) ==>
      && r.0 == Some(c.next) && c.next in r.1.pending
      && r.1.pending[r.0.value] == Timer(QueueExpired(s.queue[0].clientId), now + queueTimeout)
    ensures !HeadNeedsHold(s) && QueueTimerObsolete(s, timerQueue) ==> r.0 == None && timerQueue.value !in r.1.pending
    ensures !HeadNeedsHold(s) && !QueueTimerObsolete(s, timerQueue) ==> r == (timerQueue, c)
    ensures c.HandlesIssued() && QueueTimerObsolete(s, timerQueue) && timerQueue.value < c.next ==> timerQueue.value !in r.1.pending
    ensures c.HandlesIssued() ==> r.1.HandlesIssued() && (HeadNeedsHold(s) ==> c.next !in c.pending)
  {
    var tq := if QueueTimerObsolete(s, timerQueue) then None else timerQueue;
    var c1 := if QueueTimerObsolete(s, timerQueue) then c.Cancel(timerQueue.value) else c;
    if HeadNeedsHold(s) then (Some(c1.next), c1.Arm(Timer(QueueExpired(s.queue[0].clientId), now + queueTimeout)))
    else (tq, c1)
  }

  /** The timers that are not queue timers. */
  function OtherTimers(c: Clock): map<nat, Timer> {
    map h | h in c.pending && !c.pending[h].callback.QueueExpired? :: c.pending[h]
  }

  /** updateQueueTimer touches queue timers only, and issues handles afresh. */
  lemma QueueTimerUpdateKeepsOthers(s: State, timerQueue: Option<nat>, c: Clock, now: int, queueTimeout: int)
    requires c.HandlesIssued()
    requires timerQueue.Some? && timerQueue.value in c.pending ==> c.pending[timerQueue.value].callback.QueueExpired?
    ensures OtherTimers(QueueTimerUpdate(s, timerQueue, c, now, queueTimeout).1) == OtherTimers(c)
    ensures QueueTimerUpdate(s, timerQueue, c, now, queueTimeout).1.HandlesIssued()
  {
    var c1 := if QueueTimerObsolete(s, timerQueue) then c.Cancel(timerQueue.value) else c;
    assert OtherTimers(c1) == OtherTimers(c);
    if HeadNeedsHold(s) {
      var c2 := c1.Arm(Timer(QueueExpired(s.queue[0].clientId), now + queueTimeout));
      assert c1.next !in c1.pending;
      assert OtherTimers(c2) == OtherTimers(c1);
    }
  }

  /** Arming or cancelling a timer that is not a queue timer leaves the queue timers as
      they were. */
  lemma OtherTimerKeepsQueueTimers(s: State, timerQueue: Option<nat>, c: Clock, c': Clock)
    requires forall h :: h in c.pending && c.pending[h].callback.QueueExpired? <==> h in c'.pending && c'.pending[h].callback.QueueExpired?
    requires forall h | h in c.pending && c.pending[h].callback.QueueExpired? :: c'.pending[h] == c.pending[h]
    ensures QueueTimerInvariant(s, timerQueue, c) ==> QueueTimerInvariant(s, timerQueue, c')
    ensures QueueTimerTracked(s, timerQueue, c) ==> QueueTimerTracked(s, timerQueue, c')
  {
  }

  /** The key's invariants depend only on the key's fields and on the timers that are
      not queue timers: changing the queue and the queue timers keeps them. */
  lemma MissingTimerInvariantFrame(s: State, s': State, keyTakenOn: Option<int>, timerMissing: Option<nat>, c: Clock, c': Clock)
    requires s' == s.(queue := s'.queue)
    requires OtherTimers(c) == OtherTimers(c')
    requires KeyInvariant(s, keyTakenOn) && MissingTimerInvariant(s, keyTakenOn, timerMissing, c)
    ensures KeyInvariant(s', keyTakenOn) && MissingTimerInvariant(s', keyTakenOn, timerMissing, c')
  {
    forall h | h in c'.pending && !c'.pending[h].callback.QueueExpired?
      ensures h in c.pending && c.pending[h] == c'.pending[h]
    {
      assert h in OtherTimers(c');
    }
    if !s.keyPresent && !s.keyMissing && keyTakenOn.Some? {
      assert timerMissing.value in OtherTimers(c);
    }
  }

  /** The key's side of the server's invariant. */
  predicate KeyConsistent(s: State, keyTakenOn: Option<int>, timerMissing: Option<nat>, c: Clock, queueTimeout: int) {
    && queueTimeout > 0
    && KeyInvariant(s, keyTakenOn)
    && MissingTimerInvariant(s, keyTakenOn, timerMissing, c)
    && c.HandlesIssued()
  }

  /** The server's invariant on its values: the key's side and a settled queue. */
  predicate Consistent(s: State, keyTakenOn: Option<int>, timerMissing: Option<nat>, timerQueue: Option<nat>, c: Clock, queueTimeout: int) {
    KeyConsistent(s, keyTakenOn, timerMissing, c, queueTimeout) && QueueSettled(s, timerQueue, c, queueTimeout)
  }

  /** updateQueueTimer followed by calcQueueRemainingTime: the state, `timerQueue` and
      the timers afterwards. */
  function Settle(s: State, timerQueue: Option<nat>, c: Clock, now: int, queueTimeout: int): (r: (State, Option<nat>, Clock))
    ensures r.0 == s.(queue := r.0.queue) && |r.0.queue| == |s.queue|
    ensures forall i | 0 <= i < |s.queue| :: r.0.queue[i].clientId == s.queue[i].clientId
    ensures forall i | 0 <= i < |s.queue| && (i > 0 || !s.keyPresent) :: r.0.queue[i].expires.None?
    ensures HeadNeedsHold(s) ==> r.0.queue[0].expires == Some(now + queueTimeout) && r.1 == Some(c.next)
  {
    RemainingTimeKeepsEntries(Restamp(s.queue, s.keyPresent, now, queueTimeout), now);
    var update := QueueTimerUpdate(s, timerQueue, c, now, queueTimeout);
    (s.(queue := WithRemainingTime(Restamp(s.queue, s.keyPresent, now, queueTimeout), now)), update.0, update.1)
  }

  lemma SettledIsTracked(s: State, timerQueue: Option<nat>, c: Clock, queueTimeout: int)
    requires QueueSettled(s, timerQueue, c, queueTimeout)
    ensures NoDuplicates(s.queue) && TailUnstamped(s.queue, queueTimeout) && QueueTimerTracked(s, timerQueue, c)
  {
    ShapeHasUnstampedTail(s.queue, s.keyPresent, queueTimeout);
  }

  /** updateQueueTimer followed by calcQueueRemainingTime settles the queue: exactly the
      head holds an expiry while the key is present, and the one queue timer is the
      head's, due at its deadline. Only queue timers change, and no client. */
  lemma {:induction false} SettleRestoresQueue(s: State, timerQueue: Option<nat>, c: Clock, now: int, queueTimeout: int)
    requires NoDuplicates(s.queue) && TailUnstamped(s.queue, queueTimeout)
    requires QueueTimerTracked(s, timerQueue, c) && c.HandlesIssued()
    ensures var r := Settle(s, timerQueue, c, now, queueTimeout);
      && QueueSettled(r.0, r.1, r.2, queueTimeout)
      && r.2.HandlesIssued() && r.2.next >= c.next && OtherTimers(r.2) == OtherTimers(c)
      && r.0 == s.(queue := r.0.queue)
      && ClientIds(r.0.queue) == ClientIds(s.queue)
  {
    var r := Settle(s, timerQueue, c, now, queueTimeout);
    var q := r.0.queue;
    RestampEstablishesShape(s.queue, s.keyPresent, now, queueTimeout);
    RemainingTimeKeepsEntries(Restamp(s.queue, s.keyPresent, now, queueTimeout), now);
    QueueTimerUpdateKeepsOthers(s, timerQueue, c, now, queueTimeout);
    if |q| > 0 {
      assert q[0].clientId == s.queue[0].clientId;
      assert q[0].expires == Restamp(s.queue, s.keyPresent, now, queueTimeout)[0].expires;
    }
    assert QueueTimerInvariant(r.0, r.1, r.2) by {
      if HeadNeedsHold(s) {
        assert c.next !in c.pending;
      }
    }
  }

  /** removeFromQueue's work on the queue: nothing when the client is not queued,
      otherwise the filtered queue, settled. */
  function Removal(s: State, timerQueue: Option<nat>, c: Clock, clientId: string, now: int, queueTimeout: int): (r: (State, Option<nat>, Clock))
    ensures r.0 == s.(queue := r.0.queue)
    ensures !InQueue(s.queue, clientId) ==> r == (s, timerQueue, c)
    ensures InQueue(s.queue, clientId) ==> |r.0.queue| < |s.queue|
    ensures |r.0.queue| == |Reject(s.queue, clientId)|
    ensures forall i | 0 <= i < |r.0.queue| :: r.0.queue[i].clientId == Reject(s.queue, clientId)[i].clientId
  {
    RejectChangesIffQueued(s.queue, clientId);
    var rest := Reject(s.queue, clientId);
    if |rest| == |s.queue| then (s, timerQueue, c) else Settle(s.(queue := rest), timerQueue, c, now, queueTimeout)
  }

  /** The two moments at which the head leaves a queue that is not settled: the key
      has just been taken (its hold is obsolete), or its own timer has just fired (the
      timer is gone). */
  predicate HeadLeaving(s: State, timerQueue: Option<nat>, c: Clock, queueTimeout: int, clientId: string) {
    && |s.queue| > 0 && s.queue[0].clientId == clientId
    && NoDuplicates(s.queue) && TailUnstamped(s.queue, queueTimeout)
    && (timerQueue.Some? ==> timerQueue.value in c.pending && c.pending[timerQueue.value].callback.QueueExpired?)
    && (forall h | h in c.pending && c.pending[h].callback.QueueExpired? :: timerQueue == Some(h))
  }

  /** removeFromQueue restores the settled queue, from a settled queue or from one whose
      head is leaving, and removes exactly that client's entries. */
  lemma RemovalRestoresQueue(s: State, timerQueue: Option<nat>, c: Clock, clientId: string, now: int, queueTimeout: int)
    requires QueueSettled(s, timerQueue, c, queueTimeout) || HeadLeaving(s, timerQueue, c, queueTimeout, clientId)
    requires c.HandlesIssued()
    ensures var r := Removal(s, timerQueue, c, clientId, now, queueTimeout);
      && QueueSettled(r.0, r.1, r.2, queueTimeout)
      && r.2.HandlesIssued() && r.2.next >= c.next && OtherTimers(r.2) == OtherTimers(c)
      && r.0 == s.(queue := r.0.queue)
      && ClientIds(r.0.queue) == ClientIds(Reject(s.queue, clientId))
  {
    var rest := Reject(s.queue, clientId);
    RejectChangesIffQueued(s.queue, clientId);
    if |rest| != |s.queue| {
      var s1 := s.(queue := rest);
      if QueueSettled(s, timerQueue, c, queueTimeout) {
        SettledIsTracked(s, timerQueue, c, queueTimeout);
      } else {
        RejectHead(s.queue);
      }
      RejectNoDuplicates(s.queue, clientId);
      RejectKeepsTailUnstamped(s.queue, clientId, queueTimeout);
      assert QueueTimerTracked(s1, timerQueue, c);
      SettleRestoresQueue(s1, timerQueue, c, now, queueTimeout);
    }
  }

  /** addToQueue's work on the queue: the new entry goes last and the queue settles. */
  lemma AppendRestoresQueue(s: State, timerQueue: Option<nat>, c: Clock, clientId: string, now: int, queueTimeout: int)
    requires QueueSettled(s, timerQueue, c, queueTimeout) && c.HandlesIssued() && !InQueue(s.queue, clientId)
    ensures var r := Settle(s.(queue := s.queue + [NewEntry(clientId)]), timerQueue, c, now, queueTimeout);
      && QueueSettled(r.0, r.1, r.2, queueTimeout)
      && r.2.HandlesIssued() && r.2.next >= c.next && OtherTimers(r.2) == OtherTimers(c)
      && r.0 == s.(queue := r.0.queue)
      && ClientIds(r.0.queue) == ClientIds(s.queue) + [clientId]
  {
    var s1 := s.(queue := s.queue + [NewEntry(clientId)]);
    AppendNoDuplicates(s.queue, clientId);
    SettledIsTracked(s, timerQueue, c, queueTimeout);
    assert TailUnstamped(s1.queue, queueTimeout);
    if |s.queue| > 0 {
      assert s1.queue[0] == s.queue[0];
    }
    assert QueueTimerTracked(s1, timerQueue, c);
    SettleRestoresQueue(s1, timerQueue, c, now, queueTimeout);
  }

  /** calcQueueRemainingTime on its own keeps the queue settled. */
  lemma RemainingTimeKeepsSettled(s: State, timerQueue: Option<nat>, c: Clock, now: int, queueTimeout: int)
    requires QueueSettled(s, timerQueue, c, queueTimeout)
    ensures QueueSettled(s.(queue := WithRemainingTime(s.queue, now)), timerQueue, c, queueTimeout)
  {
    RemainingTimeKeepsShape(s.queue, s.keyPresent, now, queueTimeout);
    RemainingTimeKeepsEntries(s.queue, now);
  }

  /** Taking a present key and arming its missing check keeps the key's invariants,
      and leaves the head, if any, leaving. */
  lemma TakeArmsMissingCheck(s: State, keyTakenOn: Option<int>, timerMissing: Option<nat>, timerQueue: Option<nat>,
                             c: Clock, now: int, missingTimeout: int, queueTimeout: int)
    requires s.keyPresent && Consistent(s, keyTakenOn, timerMissing, timerQueue, c, queueTimeout)
    ensures var s' := s.(keyPresent := false);
      var c' := c.Arm(Timer(WentMissing, now + missingTimeout));
      && KeyConsistent(s', Some(now), Some(c.next), c', queueTimeout)
      && (|s.queue| > 0 ==> HeadLeaving(s', timerQueue, c', queueTimeout, s.queue[0].clientId))
      && ExpiryShape(if |s.queue| > 0 then s.queue[1..] else s.queue, false, queueTimeout)
      && (|s.queue| == 0 ==> Consistent(s', Some(now), Some(c.next), timerQueue, c', queueTimeout))
  {
    ShapeHasUnstampedTail(s.queue, true, queueTimeout);
  }

  /** When the key is taken, the head leaves, nobody is granted a hold and the queue
      timer, if any, is cleared. */
  lemma TakeRemovesHead(s: State, timerQueue: Option<nat>, c: Clock, now: int, queueTimeout: int)
    requires !s.keyPresent && |s.queue| > 0 && NoDuplicates(s.queue)
    requires ExpiryShape(s.queue[1..], false, queueTimeout)
    ensures Removal(s, timerQueue, c, s.queue[0].clientId, now, queueTimeout)
         == (s.(queue := s.queue[1..]), None, if timerQueue.Some? then c.Cancel(timerQueue.value) else c)
    ensures WithRemainingTime(s.queue[1..], now) == s.queue[1..]
  {
    RejectHead(s.queue);
    IdleQueueUnchanged(s.queue[1..], now, queueTimeout);
  }

  /** removeFromQueue restores the whole invariant and changes only the queue. */
  lemma RemovalConsistent(s: State, keyTakenOn: Option<int>, timerMissing: Option<nat>, timerQueue: Option<nat>, c: Clock,
                          clientId: string, now: int, queueTimeout: int)
    requires KeyConsistent(s, keyTakenOn, timerMissing, c, queueTimeout)
    requires QueueSettled(s, timerQueue, c, queueTimeout) || HeadLeaving(s, timerQueue, c, queueTimeout, clientId)
    ensures var r := Removal(s, timerQueue, c, clientId, now, queueTimeout);
      && Consistent(r.0, keyTakenOn, timerMissing, r.1, r.2, queueTimeout)
      && r.0 == s.(queue := r.0.queue)
      && ClientIds(r.0.queue) == ClientIds(Reject(s.queue, clientId))
  {
    var r := Removal(s, timerQueue, c, clientId, now, queueTimeout);
    RemovalRestoresQueue(s, timerQueue, c, clientId, now, queueTimeout);
    MissingTimerInvariantFrame(s, r.0, keyTakenOn, timerMissing, c, r.2);
  }

  /** When the head's queue timer fires, the timer is the head's; once it is consumed
      the head is leaving, and its removal grants the next client, if any, a fresh
      hold. */
  lemma ExpiryHandsOver(s: State, keyTakenOn: Option<int>, timerMissing: Option<nat>, timerQueue: Option<nat>, c: Clock,
                        h: nat, now: int, queueTimeout: int)
    requires Consistent(s, keyTakenOn, timerMissing, timerQueue, c, queueTimeout)
    requires h in c.pending && c.pending[h].callback.QueueExpired?
    ensures |s.queue| > 0 && c.pending[h].callback.clientId == s.queue[0].clientId
    ensures var c' := c.Cancel(h);
      var q := s.queue;
      && KeyConsistent(s, keyTakenOn, timerMissing, c', queueTimeout)
      && HeadLeaving(s, None, c', queueTimeout, q[0].clientId)
      && InQueue(q, q[0].clientId)
      && Removal(s, None, c', q[0].clientId, now, queueTimeout)
         == (s.(queue := if |q| > 1 then [Held(q[1], now, queueTimeout)] + q[2..] else []),
             if |q| > 1 then Some(c.next) else None,
             if |q| > 1 then c'.Arm(Timer(QueueExpired(q[1].clientId), now + queueTimeout)) else c')
  {
    var q := s.queue;
    var c' := c.Cancel(h);
    assert OtherTimers(c') == OtherTimers(c);
    MissingTimerInvariantFrame(s, s, keyTakenOn, timerMissing, c, c');
    ShapeHasUnstampedTail(q, true, queueTimeout);
    RejectHead(q);
    HoldGranted(q[1..], now, queueTimeout);
    if |q| > 1 {
      assert q[1..][1..] == q[2..];
    }
  }
}
