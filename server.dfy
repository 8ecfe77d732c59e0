/** The key-custody server of server.js: whether the key is present, taken or
    missing, the reservation queue with the head's hold, the connection registry,
    and the timers that drive them. Broadcasts, glance pushes and notifications are
    logged instead of sent; the time of day is the `now` parameter of each handler. */
module Server {
  import opened Common
  import opened Reservations
  import opened Registry
  import opened Custody
  import Hipchat

  /** The delays of server.js in milliseconds; debug mode shortens three of them. */
  const CLEANUP_DELAY: int := 3000
  const MISSING_TIMEOUT: int := 15 * 60 * 1000
  const MISSING_MAIL_TIMEOUT: int := 2 * 60 * 1000
  const QUEUE_TIMEOUT: int := 30000
  const DEBUG_MISSING_TIMEOUT: int := 5000
  const DEBUG_MISSING_MAIL_TIMEOUT: int := 3000
  const DEBUG_QUEUE_TIMEOUT: int := 10000

  /** Position `i` of the restamped queue is entry `i` stamped on its own. */
  lemma RestampAt(q: seq<Entry>, keyPresent: bool, now: int, queueTimeout: int, i: nat)
    requires i < |q|
    ensures Restamp(q, keyPresent, now, queueTimeout)[i] == StampAt(q[i], i == 0 && keyPresent, now, queueTimeout)
  {
  }

  /** The server: `state` is what clients see, the next four fields are
      `internalState`, `clock` holds the pending timers, `events` the broadcasts and
      `missingMails` the take time reported by each missing-key mail. */
  class KeyServer {
    var state: State
    var keyTakenOn: Option<int>
    var timerMissing: Option<nat>
    var timerQueue: Option<nat>
    var clientConnectionsMap: map<string, seq<string>>
    var clock: Clock
    var events: seq<Event>
    var missingMails: seq<int>
    const missingTimeout: int
    const missingMailTimeout: int
    const queueTimeout: int
    const hipchat: Hipchat.Integration

    /** Everything but the queue is consistent: the key's condition, its timers, and
        the integration's latch, which is set exactly while the key is missing. */
    ghost predicate ValidExceptQueue()
      reads this, hipchat
    {
      && KeyConsistent(state, keyTakenOn, timerMissing, clock, queueTimeout)
      && hipchat.wasMissing == state.keyMissing
    }

    /** The invariant that every handler keeps. */
    ghost predicate Valid()
      reads this, hipchat
    {
      && Consistent(state, keyTakenOn, timerMissing, timerQueue, clock, queueTimeout)
      && hipchat.wasMissing == state.keyMissing
    }

    /** The state as the glance should show it: with the time the key was taken. */
    function View(): (v: Hipchat.StateView)
      reads this
      ensures v.keyPresent == state.keyPresent && v.keyMissing == state.keyMissing
      ensures v.queueLength == |state.queue| && v.keyTakenOn == keyTakenOn
    {
      Hipchat.StateView(state.keyPresent, state.keyMissing, |state.queue|, keyTakenOn)
    }

    /** The glance for the current state. */
    function Glance(): Hipchat.StatusContent
      reads this
    {
      Hipchat.StatusContentFromState(View())
    }

    /* What each handler leaves behind, relative to the state it started from. The
       predicates name every field a handler may change, so that the dispatchers
       (Switch, the sensor events, Fire) can promise exactly what the handler does. */

    /** addToQueue: a queued client changes nothing; a new one is appended, the queue
        settles, and the reservation is broadcast and shown. */
    twostate predicate Enqueued(clientId: string, now: int)
      reads this, hipchat
    {
      if InQueue(old(state.queue), clientId) then
        && state == old(state) && timerQueue == old(timerQueue) && clock == old(clock)
        && events == old(events) && hipchat.glances == old(hipchat.glances)
      else
        && (state, timerQueue, clock)
           == Settle(old(state).(queue := old(state.queue) + [NewEntry(clientId)]), old(timerQueue), old(clock), now, queueTimeout)
        && events == old(events) + [ReservationQueued(state)]
        && hipchat.glances == old(hipchat.glances) + [Glance()]
    }

    /** removeFromQueue: the queue, queue timer and timers are the removal's result;
        the removal is broadcast and shown only if the client was queued. */
    twostate predicate Removed(clientId: string, success: bool, now: int)
      reads this, hipchat
    {
      && (state, timerQueue, clock) == Removal(old(state), old(timerQueue), old(clock), clientId, now, queueTimeout)
      && events == old(events) + (if InQueue(old(state.queue), clientId) then [ReservationRemoved(state, success)] else [])
      && hipchat.glances == old(hipchat.glances) + (if InQueue(old(state.queue), clientId) then [Glance()] else [])
    }

    /** None of the fields a handler may change has changed. */
    twostate predicate Idle()
      reads this, hipchat
    {
      && state == old(state) && keyTakenOn == old(keyTakenOn) && timerMissing == old(timerMissing)
      && timerQueue == old(timerQueue) && clientConnectionsMap == old(clientConnectionsMap)
      && clock == old(clock) && events == old(events) && missingMails == old(missingMails)
      && hipchat.wasMissing == old(hipchat.wasMissing) && hipchat.glances == old(hipchat.glances)
      && hipchat.sent == old(hipchat.sent)
    }

    /** onKeyTaken: a present key is taken now and its missing check armed; the head,
        if any, is served and leaves with success; nobody holds the key. A key that is
        not present changes nothing. */
    twostate predicate Took(now: int)
      reads this, hipchat
    {
      if !old(state.keyPresent) then Idle()
      else
        var q := old(state.queue);
        var armed := old(clock).Arm(Timer(WentMissing, now + missingTimeout));
        && state == old(state).(keyPresent := false, queue := if |q| > 0 then q[1..] else q)
        && keyTakenOn == Some(now)
        && timerMissing == Some(old(clock.next))
        && timerQueue == None
        && clock == (if old(timerQueue).Some? then armed.Cancel(old(timerQueue).value) else armed)
        && events == old(events) + (if |q| > 0 then [ReservationRemoved(state, true)] else []) + [KeyTaken(state)]
        && hipchat.glances == old(hipchat.glances) + (if |q| > 0 then [Glance()] else []) + [Glance()]
        && clientConnectionsMap == old(clientConnectionsMap) && missingMails == old(missingMails)
        && hipchat.wasMissing == old(hipchat.wasMissing) && hipchat.sent == old(hipchat.sent)
    }

    /** onKeyReturned: an absent key is back, neither taken nor missing; its missing
        timer is cleared; the head, if any, gets a hold; "key back" goes out only after
        a miss. A key that is present changes nothing. */
    twostate predicate Returned(now: int)
      reads this, hipchat
    {
      if old(state.keyPresent) then Idle()
      else
        var q := old(state.queue);
        var cleared := if old(timerMissing).Some? then old(clock).Cancel(old(timerMissing).value) else old(clock);
        && state == old(state).(keyPresent := true, keyMissing := false, keyMissingSince := None,
                                queue := if |q| > 0 then [Held(q[0], now, queueTimeout)] + q[1..] else q)
        && keyTakenOn == None
        && timerMissing == old(timerMissing)
        && timerQueue == (if |q| > 0 then Some(old(clock.next)) else None)
        && clock == (if |q| > 0 then cleared.Arm(Timer(QueueExpired(q[0].clientId), now + queueTimeout)) else cleared)
        && events == old(events) + [KeyReturned(state)]
        && hipchat.glances == old(hipchat.glances) + [Glance()]
        && !hipchat.wasMissing
        && hipchat.sent == (if hipchat.doSendNotification && old(state.keyMissing)
                            then old(hipchat.sent) + [Hipchat.KeyBackNotice] else old(hipchat.sent))
        && clientConnectionsMap == old(clientConnectionsMap) && missingMails == old(missingMails)
    }

    /** onKeyWentMissing, run by the missing check `h`: the key is missing since now,
        the mail timer replaces the check, and "key gone" goes out. */
    twostate predicate MarkedMissing(h: nat, now: int)
      reads this, hipchat
    {
      && h in old(clock.pending) && old(clock.pending[h].callback) == WentMissing
      && state == old(state).(keyMissing := true, keyMissingSince := Some(now))
      && keyTakenOn == old(keyTakenOn)
      && timerMissing == Some(old(clock.next))
      && timerQueue == old(timerQueue)
      && clock == old(clock).Cancel(h).Arm(Timer(MissingMail, now + missingMailTimeout))
      && events == old(events) + [KeyWentMissing(state)]
      && hipchat.glances == old(hipchat.glances) + [Glance()]
      && hipchat.wasMissing
      && hipchat.sent == (if hipchat.doSendNotification then old(hipchat.sent) + [Hipchat.KeyGoneNotice] else old(hipchat.sent))
      && clientConnectionsMap == old(clientConnectionsMap) && missingMails == old(missingMails)
    }

    /** onKeyMissingMail, run by the mail timer `h`: outside debug mode the mail
        reports the take time; nothing else but the timer changes. */
    twostate predicate MailSent(h: nat)
      reads this, hipchat
    {
      && h in old(clock.pending) && old(clock.pending[h].callback) == MissingMail
      && old(keyTakenOn).Some?
      && state == old(state) && keyTakenOn == old(keyTakenOn)
      && timerMissing == None && timerQueue == old(timerQueue)
      && clock == old(clock).Cancel(h)
      && missingMails == (if state.debugMode then old(missingMails) else old(missingMails) + [old(keyTakenOn).value])
      && events == old(events) && clientConnectionsMap == old(clientConnectionsMap)
      && hipchat.wasMissing == old(hipchat.wasMissing) && hipchat.glances == old(hipchat.glances)
      && hipchat.sent == old(hipchat.sent)
    }

    /** onQueueTimerExpired, run by the queue timer `h`: the head loses its place
        without success and the next client, if any, gets a hold. */
    twostate predicate HoldExpired(h: nat, now: int)
      reads this, hipchat
    {
      && h in old(clock.pending) && old(clock.pending[h].callback).QueueExpired?
      && |old(state.queue)| > 0 && old(clock.pending[h].callback.clientId) == old(state.queue[0].clientId)
      && var q := old(state.queue);
        var consumed := old(clock).Cancel(h);
        && state == old(state).(queue := if |q| > 1 then [Held(q[1], now, queueTimeout)] + q[2..] else [])
        && timerQueue == (if |q| > 1 then Some(old(clock.next)) else None)
        && clock == (if |q| > 1 then consumed.Arm(Timer(QueueExpired(q[1].clientId), now + queueTimeout)) else consumed)
        && events == old(events) + [ReservationRemoved(state, false)]
        && hipchat.glances == old(hipchat.glances) + [Glance()]
        && keyTakenOn == old(keyTakenOn) && timerMissing == old(timerMissing)
        && clientConnectionsMap == old(clientConnectionsMap) && missingMails == old(missingMails)
        && hipchat.wasMissing == old(hipchat.wasMissing) && hipchat.sent == old(hipchat.sent)
    }

    /** The delayed cleanup run by the timer `h`: the socket leaves its client's list;
        a client left without connections that is not a HipChat user leaves the queue,
        which is broadcast and shown if it was queued. */
    twostate predicate CleanedUp(h: nat, isHipchatUser: bool, now: int)
      reads this, hipchat
    {
      && h in old(clock.pending) && old(clock.pending[h].callback).ConnectionCleanup?
      && var cb := old(clock.pending[h].callback);
        var rest := Without(Registered(old(clientConnectionsMap), cb.clientId), cb.socketId);
        var leaves := rest == [] && !isHipchatUser && InQueue(old(state.queue), cb.clientId);
        && clientConnectionsMap == (if rest == [] then old(clientConnectionsMap) - {cb.clientId}
                                    else old(clientConnectionsMap)[cb.clientId := rest])
        && (state, timerQueue, clock)
           == (if rest == [] && !isHipchatUser
               then Removal(old(state), old(timerQueue), old(clock).Cancel(h), cb.clientId, now, queueTimeout)
               else (old(state), old(timerQueue), old(clock).Cancel(h)))
        && events == old(events) + (if leaves then [ReservationRemoved(state, false)] else [])
        && hipchat.glances == old(hipchat.glances) + (if leaves then [Glance()] else [])
        && keyTakenOn == old(keyTakenOn) && timerMissing == old(timerMissing) && missingMails == old(missingMails)
        && hipchat.wasMissing == old(hipchat.wasMissing) && hipchat.sent == old(hipchat.sent)
    }

    /** Start-up: the key counts as taken until the sensor reports it. */
    constructor (debugMode: bool, doSendNotification: bool, storeData: map<string, Hipchat.Room>)
      ensures Valid() && fresh(hipchat)
      ensures state == State(false, false, None, [], debugMode)
      ensures keyTakenOn == None && timerMissing == None && timerQueue == None
      ensures clientConnectionsMap == map[] && clock == Clock(map[], 0)
      ensures events == [] && missingMails == []
      ensures missingTimeout == if debugMode then DEBUG_MISSING_TIMEOUT else MISSING_TIMEOUT
      ensures missingMailTimeout == if debugMode then DEBUG_MISSING_MAIL_TIMEOUT else MISSING_MAIL_TIMEOUT
      ensures queueTimeout == if debugMode then DEBUG_QUEUE_TIMEOUT else QUEUE_TIMEOUT
      ensures hipchat.doSendNotification == doSendNotification && hipchat.storeData == storeData
      ensures hipchat.glances == [] && hipchat.sent == []
    {
      state := State(false, false, None, [], debugMode);
      keyTakenOn := None;
      timerMissing := None;
      timerQueue := None;
      clientConnectionsMap := map[];
      clock := Clock(map[], 0);
      events := [];
      missingMails := [];
      missingTimeout := if debugMode then DEBUG_MISSING_TIMEOUT else MISSING_TIMEOUT;
      missingMailTimeout := if debugMode then DEBUG_MISSING_MAIL_TIMEOUT else MISSING_MAIL_TIMEOUT;
      queueTimeout := if debugMode then DEBUG_QUEUE_TIMEOUT else QUEUE_TIMEOUT;
      hipchat := new Hipchat.Integration(doSendNotification, storeData);
    }

    /** calcQueueRemainingTime: the head learns how long its hold has left. */
    method CalcQueueRemainingTime(now: int)
      modifies this`state
      ensures state == old(state).(queue := WithRemainingTime(old(state.queue), now))
    {
      if |state.queue| > 0 {
        var head := state.queue[0];
        if head.expires.Some? {
          head := head.(expiresIn := Some(head.expires.value - now));
        } else {
          head := head.(expiresIn := None);
        }
        state := state.(queue := state.queue[0 := head]);
      }
    }

    /** updateQueueTimer: drops an obsolete queue timer, then walks the queue granting
        the head a hold while the key is present and clearing everybody else's. */
    method UpdateQueueTimer(now: int)
      modifies this`state, this`timerQueue, this`clock
      ensures state == old(state).(queue := Restamp(old(state.queue), old(state.keyPresent), now, queueTimeout))
      ensures (timerQueue, clock) == QueueTimerUpdate(old(state), old(timerQueue), old(clock), now, queueTimeout)
    {
      var s, tq, c := state, timerQueue, clock;
      ghost var update := QueueTimerUpdate(s, tq, c, now, queueTimeout);
      if tq.Some? && (!s.keyPresent || |s.queue| < 1 || s.queue[0].expires.None?) {
        c := c.Cancel(tq.value);
        tq := None;
      }
      ghost var stamped := Restamp(s.queue, s.keyPresent, now, queueTimeout);
      ghost var cleared := (tq, c);
      var queue := s.queue;
      var i := 0;
      while i < |queue|
        invariant 0 <= i <= |stamped| == |queue|
        invariant forall k | 0 <= k < i :: queue[k] == stamped[k]
        invariant forall k | i <= k < |queue| :: queue[k] == s.queue[k]
        invariant i == 0 ==> tq == cleared.0 && c == cleared.1
        invariant i > 0 ==> tq == update.0 && c == update.1
      {
        var entry := queue[i];
        assert entry == s.queue[i];
        RestampAt(s.queue, s.keyPresent, now, queueTimeout, i);
        if s.keyPresent && i == 0 {
          if entry.expires.None? {
            var clientId := entry.clientId;
            tq := Some(c.next);
            c := c.Arm(Timer(QueueExpired(clientId), now + queueTimeout));
            entry := entry.(expiryTime := Some(queueTimeout), expires := Some(now + queueTimeout));
          }
        } else {
          entry := entry.(expiryTime := None, expires := None);
        }
        assert entry == stamped[i];
        queue := queue[i := entry];
        i := i + 1;
      }
      assert queue == stamped;
      assert (tq, c) == update;
      state, timerQueue, clock := s.(queue := queue), tq, c;
    }

    /** updateQueueTimer followed by calcQueueRemainingTime, as every change to the
        queue or the key's presence runs them. */
    method SettleQueue(now: int)
      modifies this`state, this`timerQueue, this`clock
      ensures (state, timerQueue, clock) == Settle(old(state), old(timerQueue), old(clock), now, queueTimeout)
    {
      UpdateQueueTimer(now);
      CalcQueueRemainingTime(now);
    }

    /** addToQueue: a client not yet queued is appended and gets a hold if it is first
        and the key is there; a client already queued changes nothing. */
    method AddToQueue(clientId: string, now: int) returns (added: bool)
      requires Valid()
      modifies this`state, this`timerQueue, this`clock, this`events, hipchat`glances
      ensures Valid()
      ensures added <==> !InQueue(old(state.queue), clientId)
      ensures ClientIds(state.queue) == if added then ClientIds(old(state.queue)) + [clientId] else ClientIds(old(state.queue))
      ensures Enqueued(clientId, now)
    {
      if InQueue(state.queue, clientId) {
        return false;
      }
      AppendRestoresQueue(state, timerQueue, clock, clientId, now, queueTimeout);
      state := state.(queue := state.queue + [NewEntry(clientId)]);
      UpdateQueueTimer(now);
      CalcQueueRemainingTime(now);
      MissingTimerInvariantFrame(old(state), state, keyTakenOn, timerMissing, old(clock), clock);
      events := events + [ReservationQueued(state)];
      hipchat.NotifyReservationQueued(View());
      added := true;
    }

    /** removeFromQueue: every entry of the client goes; only when something went is
        the queue settled again and the removal broadcast. It runs on a settled queue,
        or on one whose head is leaving because the key was just taken or its hold
        just ran out. */
    method RemoveFromQueue(clientId: string, success: bool, now: int)
      requires ValidExceptQueue()
      requires QueueSettled(state, timerQueue, clock, queueTimeout) || HeadLeaving(state, timerQueue, clock, queueTimeout, clientId)
      modifies this`state, this`timerQueue, this`clock, this`events, hipchat`glances
      ensures Valid()
      ensures Removed(clientId, success, now)
      ensures ClientIds(state.queue) == ClientIds(Reject(old(state.queue), clientId))
    {
      RemovalConsistent(state, keyTakenOn, timerMissing, timerQueue, clock, clientId, now, queueTimeout);
      RejectEntries(clientId, success, now);
    }

    /** The steps of removeFromQueue, without the invariant. */
    method RejectEntries(clientId: string, success: bool, now: int)
      modifies this`state, this`timerQueue, this`clock, this`events, hipchat`glances
      ensures Removed(clientId, success, now)
    {
      ghost var r := Removal(state, timerQueue, clock, clientId, now, queueTimeout);
      RejectChangesIffQueued(state.queue, clientId);
      var oldLength := |state.queue|;
      state := state.(queue := Reject(state.queue, clientId));
      if |state.queue| != oldLength {
        SettleQueue(now);
        events := events + [ReservationRemoved(state, success)];
        hipchat.NotifyReservationRemoved(View());
      }
      assert (state, timerQueue, clock) == r;
    }

    /** onQueueTimerExpired: the head's hold has run out. It loses its place (the
        removal is not a success) and the next client, if any, is granted a hold. */
    method OnQueueTimerExpired(h: nat, now: int)
      requires Valid() && h in clock.pending && clock.pending[h].callback.QueueExpired?
      modifies this`state, this`timerQueue, this`clock, this`events, hipchat`glances
      ensures Valid()
      ensures HoldExpired(h, now)
    {
      ExpiryHandsOver(state, keyTakenOn, timerMissing, timerQueue, clock, h, now, queueTimeout);
      RemovalConsistent(state, keyTakenOn, timerMissing, None, clock.Cancel(h), state.queue[0].clientId, now, queueTimeout);
      ExpireHold(h, now);
    }

    /** The steps of onQueueTimerExpired, without the invariant: the fired timer is
        gone and its client is removed from the queue it is in. */
    method ExpireHold(h: nat, now: int)
      requires h in clock.pending && clock.pending[h].callback.QueueExpired?
      requires InQueue(state.queue, clock.pending[h].callback.clientId)
      modifies this`state, this`timerQueue, this`clock, this`events, hipchat`glances
      ensures (state, timerQueue, clock)
           == Removal(old(state), None, old(clock).Cancel(h), old(clock.pending[h].callback.clientId), now, queueTimeout)
      ensures events == old(events) + [ReservationRemoved(state, false)]
      ensures hipchat.glances == old(hipchat.glances) + [Glance()]
    {
      var clientId := clock.pending[h].callback.clientId;
      clock := clock.Cancel(h);
      timerQueue := None;
      RejectEntries(clientId, false, now);
    }

    /** onKeyTaken: the key leaves the board. The missing check is armed, the client
        at the head (if any) is served and leaves the queue with success, and nobody
        holds the key any more. A key that is not present ignores the event. */
    method OnKeyTaken(now: int)
      requires Valid()
      modifies this`state, this`keyTakenOn, this`timerMissing, this`timerQueue, this`clock, this`events, hipchat`glances
      ensures Valid()
      ensures Took(now)
      ensures old(state.keyPresent) ==> Glance().status.value.text == "BESETZT"
    {
      if !state.keyPresent {
        return;
      }
      LeaveBoard(now);
      if |state.queue| > 0 {
        ServeHead(now);
      }
      AnnounceTake(now);
    }

    /** The last steps of onKeyTaken: with nobody holding the key the remaining times
        stay as they are, and the take is broadcast and shown as occupied. */
    method AnnounceTake(now: int)
      requires Valid() && !state.keyPresent && !state.keyMissing && keyTakenOn.Some?
      modifies this`state, this`events, hipchat`glances
      ensures Valid() && state == old(state)
      ensures events == old(events) + [KeyTaken(state)]
      ensures hipchat.glances == old(hipchat.glances) + [Glance()]
      ensures Glance().status.value.text == "BESETZT"
    {
      IdleQueueUnchanged(state.queue, now, queueTimeout);
      CalcQueueRemainingTime(now);
      events := events + [KeyTaken(state)];
      hipchat.NotifyKeyTaken(View());
    }

    /** The step of onKeyTaken that records the take: the key is no longer present,
        it was taken now, and its missing check is armed. */
    method LeaveBoard(now: int)
      requires Valid() && state.keyPresent
      modifies this`state, this`keyTakenOn, this`timerMissing, this`clock
      ensures ValidExceptQueue()
      ensures state == old(state).(keyPresent := false)
      ensures keyTakenOn == Some(now) && timerMissing == Some(old(clock.next))
      ensures clock == old(clock).Arm(Timer(WentMissing, now + missingTimeout))
      ensures |state.queue| > 0 ==>
        && HeadLeaving(state, timerQueue, clock, queueTimeout, state.queue[0].clientId)
        && ExpiryShape(state.queue[1..], false, queueTimeout)
      ensures |state.queue| == 0 ==> Valid()
    {
      TakeArmsMissingCheck(state, keyTakenOn, timerMissing, timerQueue, clock, now, missingTimeout, queueTimeout);
      state := state.(keyPresent := false);
      keyTakenOn := Some(now);
      timerMissing := Some(clock.next);
      clock := clock.Arm(Timer(WentMissing, now + missingTimeout));
    }

    /** The step of onKeyTaken that serves the head: it leaves the queue with success,
        and as the key is gone its queue timer is cleared and nobody gets a hold. */
    method ServeHead(now: int)
      requires ValidExceptQueue() && !state.keyPresent && |state.queue| > 0
      requires HeadLeaving(state, timerQueue, clock, queueTimeout, state.queue[0].clientId)
      requires ExpiryShape(state.queue[1..], false, queueTimeout)
      modifies this`state, this`timerQueue, this`clock, this`events, hipchat`glances
      ensures Valid()
      ensures state == old(state).(queue := old(state.queue)[1..])
      ensures timerQueue == None
      ensures clock == if old(timerQueue).Some? then old(clock).Cancel(old(timerQueue).value) else old(clock)
      ensures events == old(events) + [ReservationRemoved(state, true)]
      ensures hipchat.glances == old(hipchat.glances) + [Hipchat.StatusContentFromState(View())]
    {
      TakeRemovesHead(state, timerQueue, clock, now, queueTimeout);
      assert InQueue(state.queue, state.queue[0].clientId);
      RemoveFromQueue(state.queue[0].clientId, true, now);
    }

    /** onKeyWentMissing: the key has been away for `missingTimeout`. It is marked
        missing since now, the mail timer replaces the missing check, and the rooms are
        told the key is gone. */
    method OnKeyWentMissing(h: nat, now: int)
      requires Valid() && h in clock.pending && clock.pending[h].callback == WentMissing
      modifies this`state, this`timerMissing, this`clock, this`events, hipchat`wasMissing, hipchat`glances, hipchat`sent
      ensures Valid()
      ensures MarkedMissing(h, now)
      ensures Glance().status.value.text == "VERMISST"
    {
      clock := clock.Cancel(h);
      state := state.(keyMissing := true, keyMissingSince := Some(now));
      timerMissing := Some(clock.next);
      clock := clock.Arm(Timer(MissingMail, now + missingMailTimeout));
      OtherTimerKeepsQueueTimers(state, timerQueue, old(clock), clock);
      AnnounceMissing(now);
    }

    /** The last steps of onKeyWentMissing: nobody holds the key, so the remaining
        times stay as they are; the loss is broadcast, shown and latched. */
    method AnnounceMissing(now: int)
      requires Consistent(state, keyTakenOn, timerMissing, timerQueue, clock, queueTimeout)
      requires !state.keyPresent && state.keyMissing
      modifies this`state, this`events, hipchat`wasMissing, hipchat`glances, hipchat`sent
      ensures Valid() && state == old(state) && hipchat.wasMissing
      ensures events == old(events) + [KeyWentMissing(state)]
      ensures hipchat.glances == old(hipchat.glances) + [Glance()]
      ensures hipchat.sent == if hipchat.doSendNotification then old(hipchat.sent) + [Hipchat.KeyGoneNotice] else old(hipchat.sent)
      ensures Glance().status.value.text == "VERMISST"
    {
      IdleQueueUnchanged(state.queue, now, queueTimeout);
      CalcQueueRemainingTime(now);
      events := events + [KeyWentMissing(state)];
      hipchat.NotifyKeyMissing(View());
    }

    /** onKeyMissingMail: the key is still missing after the grace period. The mail,
        which reports since when the key is gone, goes out unless in debug mode. */
    method OnKeyMissingMail(h: nat)
      requires Valid() && h in clock.pending && clock.pending[h].callback == MissingMail
      modifies this`timerMissing, this`clock, this`missingMails
      ensures Valid()
      ensures MailSent(h)
    {
      clock := clock.Cancel(h);
      timerMissing := None;
      OtherTimerKeepsQueueTimers(state, timerQueue, old(clock), clock);
      if !state.debugMode {
        missingMails := missingMails + [keyTakenOn.value];
      }
    }

    /** onKeyReturned: the key is back on the board. It is no longer taken nor missing,
        the missing timer is cleared (its handle stays in `timerMissing`), the head of
        the queue is granted a hold, and the rooms hear "key back" if it had been
        missing. A key that is already present ignores the event. */
    method OnKeyReturned(now: int)
      requires Valid()
      modifies this`state, this`keyTakenOn, this`timerQueue, this`clock, this`events
      modifies hipchat`wasMissing, hipchat`glances, hipchat`sent
      ensures Valid()
      ensures Returned(now)
    {
      if state.keyPresent {
        return;
      }
      BackOnBoard();
      assert state.queue == old(state.queue) && timerQueue == None && hipchat.wasMissing == old(state.keyMissing);
      GrantHold(now);
      events := events + [KeyReturned(state)];
      hipchat.NotifyKeyReturned(View());
    }

    /** The step of onKeyReturned that settles the queue again: the head, if any, is
        granted a hold and its queue timer. */
    method GrantHold(now: int)
      requires KeyConsistent(state, keyTakenOn, timerMissing, clock, queueTimeout) && state.keyPresent
      requires NoDuplicates(state.queue) && ExpiryShape(state.queue, false, queueTimeout)
      requires timerQueue.None? && QueueTimerTracked(state, timerQueue, clock)
      modifies this`state, this`timerQueue, this`clock
      ensures Consistent(state, keyTakenOn, timerMissing, timerQueue, clock, queueTimeout)
      ensures var q := old(state.queue);
        && state == old(state).(queue := if |q| > 0 then [Held(q[0], now, queueTimeout)] + q[1..] else q)
        && timerQueue == (if |q| > 0 then Some(old(clock.next)) else None)
        && clock == (if |q| > 0 then old(clock).Arm(Timer(QueueExpired(q[0].clientId), now + queueTimeout)) else old(clock))
    {
      HoldGranted(state.queue, now, queueTimeout);
      ShapeHasUnstampedTail(state.queue, false, queueTimeout);
      ghost var before := state;
      SettleRestoresQueue(state, timerQueue, clock, now, queueTimeout);
      SettleQueue(now);
      MissingTimerInvariantFrame(before, state, keyTakenOn, timerMissing, old(clock), clock);
    }

    /** The step of onKeyReturned that records the return: the key is present again,
        neither taken nor missing, and its missing timer is cleared. The queue is not
        settled yet: the head still lacks its hold. */
    method BackOnBoard()
      requires Valid() && !state.keyPresent
      modifies this`state, this`keyTakenOn, this`clock
      ensures state == old(state).(keyPresent := true, keyMissing := false, keyMissingSince := None)
      ensures keyTakenOn == None
      ensures clock == if timerMissing.Some? then old(clock).Cancel(timerMissing.value) else old(clock)
      ensures KeyConsistent(state, keyTakenOn, timerMissing, clock, queueTimeout)
      ensures NoDuplicates(state.queue) && TailUnstamped(state.queue, queueTimeout) && QueueTimerTracked(state, timerQueue, clock)
    {
      ShapeHasUnstampedTail(state.queue, false, queueTimeout);
      state := state.(keyPresent := true, keyMissing := false, keyMissingSince := None);
      keyTakenOn := None;
      if timerMissing.Some? {
        clock := clock.Cancel(timerMissing.value);
      }
      assert MissingTimerInvariant(state, keyTakenOn, timerMissing, clock);
    }

    /** GET /switch: takes the key if it is present, returns it otherwise, and replies
        with the new state. */
    method Switch(now: int) returns (reply: State)
      requires Valid()
      modifies this`state, this`keyTakenOn, this`timerMissing, this`timerQueue, this`clock, this`events
      modifies hipchat`wasMissing, hipchat`glances, hipchat`sent
      ensures Valid()
      ensures state.keyPresent == !old(state.keyPresent)
      ensures old(state.keyPresent) ==> Took(now)
      ensures !old(state.keyPresent) ==> Returned(now)
      ensures reply == state
    {
      if state.keyPresent {
        OnKeyTaken(now);
      } else {
        OnKeyReturned(now);
      }
      reply := state;
    }

    /** The sensor stopped seeing the key's tag: outside debug mode, the key was taken. */
    method OnRfidWatchdogExpired(now: int)
      requires Valid()
      modifies this`state, this`keyTakenOn, this`timerMissing, this`timerQueue, this`clock, this`events, hipchat`glances
      ensures Valid()
      ensures old(state.debugMode) ==> Idle()
      ensures !old(state.debugMode) ==> Took(now) && !state.keyPresent
    {
      if !state.debugMode {
        OnKeyTaken(now);
      }
    }

    /** The sensor read the key's tag: outside debug mode, an absent key came back. */
    method OnRfidDataReceived(now: int)
      requires Valid()
      modifies this`state, this`keyTakenOn, this`timerQueue, this`clock, this`events
      modifies hipchat`wasMissing, hipchat`glances, hipchat`sent
      ensures Valid()
      ensures old(state.debugMode) ==> Idle()
      ensures !old(state.debugMode) ==> Returned(now) && state.keyPresent
    {
      if !state.keyPresent && !state.debugMode {
        OnKeyReturned(now);
      }
    }

    /** REQ_ENQUEUE: the client is queued unless it already is, and the reply says
        which. */
    method OnEnqueueRequest(clientId: string, now: int) returns (reply: string)
      requires Valid()
      modifies this`state, this`timerQueue, this`clock, this`events, hipchat`glances
      ensures Valid()
      ensures reply == if InQueue(old(state.queue), clientId) then "FAIL! mayby already enqueued, client " + clientId
                       else "DONE!" + clientId
      ensures InQueue(state.queue, clientId)
      ensures ClientIds(state.queue)
           == if InQueue(old(state.queue), clientId) then ClientIds(old(state.queue)) else ClientIds(old(state.queue)) + [clientId]
      ensures Enqueued(clientId, now)
    {
      ghost var q := state.queue;
      var added := AddToQueue(clientId, now);
      if added {
        reply := "DONE!" + clientId;
      } else {
        reply := "FAIL! mayby already enqueued, client " + clientId;
      }
      InQueueIds(q, clientId);
      InQueueIds(state.queue, clientId);
    }

    /** REQ_LEAVE_QUEUE: the client leaves the queue, if it was in it at all; the reply
        is the same either way. */
    method OnLeaveQueueRequest(clientId: string, now: int) returns (reply: string)
      requires Valid()
      modifies this`state, this`timerQueue, this`clock, this`events, hipchat`glances
      ensures Valid()
      ensures reply == "DONE! " + clientId
      ensures !InQueue(state.queue, clientId)
      ensures ClientIds(state.queue) == ClientIds(Reject(old(state.queue), clientId))
      ensures Removed(clientId, false, now)
    {
      RemoveFromQueue(clientId, false, now);
      reply := "DONE! " + clientId;
      InQueueIds(state.queue, clientId);
      InQueueIds(Reject(old(state.queue), clientId), clientId);
    }

    /** getConnectionList: the client's list, created empty on first use. */
    method GetConnectionList(clientId: string) returns (connections: seq<string>)
      modifies this`clientConnectionsMap
      ensures connections == Registered(old(clientConnectionsMap), clientId)
      ensures clientConnectionsMap == old(clientConnectionsMap)[clientId := connections]
    {
      if clientId !in clientConnectionsMap {
        clientConnectionsMap := clientConnectionsMap[clientId := []];
        return [];
      }
      connections := clientConnectionsMap[clientId];
      assert clientConnectionsMap[clientId := connections] == clientConnectionsMap;
    }

    /** removeFromConnectionList: splices every occurrence of the socket out of the
        client's list, walking it backwards; a list left empty is deleted, and only then
        is the answer true. */
    method RemoveFromConnectionList(clientId: string, socketId: string) returns (last: bool)
      modifies this`clientConnectionsMap
      ensures var rest := Without(Registered(old(clientConnectionsMap), clientId), socketId);
        && last == (rest == [])
        && clientConnectionsMap == if last then old(clientConnectionsMap) - {clientId}
                                   else old(clientConnectionsMap)[clientId := rest]
    {
      var connections := GetConnectionList(clientId);
      ghost var original := connections;
      var i := |connections| - 1;
      while i >= 0
        invariant -1 <= i < |original|
        invariant connections == original[..i + 1] + Without(original[i + 1..], socketId)
        modifies {}
        decreases i + 1
      {
        SpliceStep(original, connections, socketId, i);
        if connections[i] == socketId {
          connections := connections[..i] + connections[i + 1..];
        }
        i := i - 1;
      }
      assert original[..0] + Without(original[0..], socketId) == Without(original, socketId);
      if |connections| == 0 {
        clientConnectionsMap := clientConnectionsMap - {clientId};
        return true;
      }
      assert clientConnectionsMap[clientId := connections] == old(clientConnectionsMap)[clientId := connections];
      clientConnectionsMap := clientConnectionsMap[clientId := connections];
      return false;
    }

    /** A socket connects: it joins its client's list, and the client is greeted with
        the current state. */
    method Connect(clientId: string, socketId: string, now: int) returns (hello: Hello)
      requires Valid()
      modifies this`clientConnectionsMap, this`state
      ensures Valid()
      ensures clientConnectionsMap
           == old(clientConnectionsMap)[clientId := Registered(old(clientConnectionsMap), clientId) + [socketId]]
      ensures state == old(state).(queue := WithRemainingTime(old(state.queue), now))
      ensures hello == Hello(state, clientId)
    {
      var connections := GetConnectionList(clientId);
      clientConnectionsMap := clientConnectionsMap[clientId := connections + [socketId]];
      RemainingTimeKeepsSettled(state, timerQueue, clock, now, queueTimeout);
      CalcQueueRemainingTime(now);
      hello := Hello(state, clientId);
    }

    /** A socket disconnects: its cleanup is delayed by CLEANUP_DELAY so that a reload
        of the page does not cost the client its place. */
    method Disconnect(clientId: string, socketId: string, now: int)
      requires Valid()
      modifies this`clock
      ensures Valid()
      ensures clock == old(clock).Arm(Timer(ConnectionCleanup(clientId, socketId), now + CLEANUP_DELAY))
    {
      clock := clock.Arm(Timer(ConnectionCleanup(clientId, socketId), now + CLEANUP_DELAY));
      OtherTimerKeepsQueueTimers(state, timerQueue, old(clock), clock);
    }

    /** The delayed cleanup: the socket leaves its client's list, and a client that
        has no connection left and is not a HipChat user leaves the queue. Whether it
        is a HipChat user is the `isHipchatUser` parameter. */
    method CleanUpConnection(h: nat, isHipchatUser: bool, now: int)
      requires Valid() && h in clock.pending && clock.pending[h].callback.ConnectionCleanup?
      modifies this`clientConnectionsMap, this`state, this`timerQueue, this`clock, this`events, hipchat`glances
      ensures Valid()
      ensures CleanedUp(h, isHipchatUser, now)
    {
      var cancelled := clock.Cancel(h);
      OtherTimerKeepsQueueTimers(state, timerQueue, clock, cancelled);
      assert Consistent(state, keyTakenOn, timerMissing, timerQueue, cancelled, queueTimeout);
      RemovalConsistent(state, keyTakenOn, timerMissing, timerQueue, cancelled, clock.pending[h].callback.clientId, now, queueTimeout);
      DropConnection(h, isHipchatUser, now);
    }

    /** The steps of the delayed cleanup, without the invariant. */
    method DropConnection(h: nat, isHipchatUser: bool, now: int)
      requires h in clock.pending && clock.pending[h].callback.ConnectionCleanup?
      modifies this`clientConnectionsMap, this`state, this`timerQueue, this`clock, this`events, hipchat`glances
      ensures CleanedUp(h, isHipchatUser, now)
    {
      var callback := clock.pending[h].callback;
      clock := clock.Cancel(h);
      var last := RemoveFromConnectionList(callback.clientId, callback.socketId);
      if last && !isHipchatUser {
        RejectEntries(callback.clientId, false, now);
      }
    }

    /** A pending timer fires and runs its callback; a handle that is no longer pending
        does nothing. `hipchatUsers` are the clients the integration knows. */
    method Fire(h: nat, now: int, hipchatUsers: set<string>)
      requires Valid()
      modifies this`state, this`keyTakenOn, this`timerMissing, this`timerQueue, this`clock, this`events
      modifies this`missingMails, this`clientConnectionsMap, hipchat`wasMissing, hipchat`glances, hipchat`sent
      ensures Valid()
      ensures h !in old(clock.pending) ==> unchanged(this, hipchat)
      ensures h in old(clock.pending) && old(clock.pending[h].callback) == WentMissing ==> MarkedMissing(h, now)
      ensures h in old(clock.pending) && old(clock.pending[h].callback) == MissingMail ==> MailSent(h)
      ensures h in old(clock.pending) && old(clock.pending[h].callback).QueueExpired? ==> HoldExpired(h, now)
      ensures h in old(clock.pending) && old(clock.pending[h].callback).ConnectionCleanup? ==>
        CleanedUp(h, old(clock.pending[h].callback.clientId) in hipchatUsers, now)
    {
      if h in clock.pending {
        match clock.pending[h].callback {
          case WentMissing => OnKeyWentMissing(h, now);
          case MissingMail => OnKeyMissingMail(h);
          case QueueExpired(_) => OnQueueTimerExpired(h, now);
          case ConnectionCleanup(clientId, _) => CleanUpConnection(h, clientId in hipchatUsers, now);
        }
      }
    }
  }

  /** The clients of the filtered queue are the queue's clients with that one
      removed, in the same order. */
  lemma {:induction false} RejectIds(q: seq<Entry>, clientId: string)
    ensures ClientIds(Reject(q, clientId)) == Without(ClientIds(q), clientId)
  {
    if q != [] {
      var head := if q[0].clientId == clientId then [] else [q[0]];
      RejectIds(q[1..], clientId);
      ClientIdsAppend(head, Reject(q[1..], clientId));
      ClientIdsAppend([q[0]], q[1..]);
      assert [q[0]] + q[1..] == q;
    }
  }

  /** Enqueueing a client that is not waiting and letting it leave again restores the
      queue's clients, however the hold and the queue timer moved in between. */
  lemma LeaveUndoesEnqueue(s: State, timerQueue: Option<nat>, c: Clock, clientId: string, now: int, queueTimeout: int)
    requires QueueSettled(s, timerQueue, c, queueTimeout) && c.HandlesIssued() && !InQueue(s.queue, clientId)
    ensures var added := Settle(s.(queue := s.queue + [NewEntry(clientId)]), timerQueue, c, now, queueTimeout);
      var left := Removal(added.0, added.1, added.2, clientId, now, queueTimeout);
      ClientIds(left.0.queue) == ClientIds(s.queue)
  {
    var added := Settle(s.(queue := s.queue + [NewEntry(clientId)]), timerQueue, c, now, queueTimeout);
    AppendRestoresQueue(s, timerQueue, c, clientId, now, queueTimeout);
    RemovalRestoresQueue(added.0, added.1, added.2, clientId, now, queueTimeout);
    RejectIds(added.0.queue, clientId);
    WithoutAppend(ClientIds(s.queue), [clientId], clientId);
    InQueueIds(s.queue, clientId);
    WithoutAbsent(ClientIds(s.queue), clientId);
    assert Without([clientId], clientId) == [];
  }

  /** The same round trip on the server: REQ_ENQUEUE followed by REQ_LEAVE_QUEUE from
      a client that was not waiting leaves the queue's clients as they were, and both
      requests are broadcast. */
  method EnqueueThenLeave(server: KeyServer, clientId: string, now: int)
    requires server.Valid() && !InQueue(server.state.queue, clientId)
    modifies server`state, server`timerQueue, server`clock, server`events, server.hipchat`glances
    ensures server.Valid()
    ensures ClientIds(server.state.queue) == ClientIds(old(server.state.queue))
    ensures exists queued :: server.events == old(server.events) + [ReservationQueued(queued)] + [ReservationRemoved(server.state, false)]
  {
    ghost var s, tq, c := server.state, server.timerQueue, server.clock;
    LeaveUndoesEnqueue(s, tq, c, clientId, now, server.queueTimeout);
    var enqueued := server.OnEnqueueRequest(clientId, now);
    ghost var queued := server.state;
    var left := server.OnLeaveQueueRequest(clientId, now);
  }

  /** What server.js hands statusContentFromState: its published `state`, which has no
      take time; that lives in `internalState`. */
  function ViewAsWired(s: State): (v: Hipchat.StateView)
    ensures v.keyPresent == s.keyPresent && v.keyMissing == s.keyMissing && v.queueLength == |s.queue|
    ensures v.keyTakenOn.None?
  {
    Hipchat.StateView(s.keyPresent, s.keyMissing, |s.queue|, None)
  }

  /** As wired, a taken key that is not missing always reads UNKLAR and never BESETZT. */
  lemma TakenKeyUnclearAsWired(s: State)
    requires !s.keyPresent && !s.keyMissing
    ensures Hipchat.StatusContentFromState(ViewAsWired(s)).status.value == Hipchat.StatusValue("UNKLAR", "moved")
  {
  }

  /** With the take time passed along, a taken key that is not missing reads BESETZT. */
  lemma TakenKeyOccupied(s: State, keyTakenOn: Option<int>)
    requires KeyInvariant(s, keyTakenOn) && !s.keyPresent && !s.keyMissing && keyTakenOn.Some?
    ensures Hipchat.StatusContentFromState(Hipchat.StateView(s.keyPresent, s.keyMissing, |s.queue|, keyTakenOn)).status.value
         == Hipchat.StatusValue("BESETZT", "current")
  {
  }

  /** What the delayed cleanup leaves behind as server.js wires it: the new registry,
      and whether the call to the integration's isHipchatUser, which the object that
      hipchat.js returns does not have, throws a TypeError. The throw happens in a
      timer callback and nothing catches it, so it ends the Node process and every
      in-memory state (the queue, the key's state, the registry) is lost. */
  datatype CleanupOutcome = CleanupOutcome(connectionsMap: map<string, seq<string>>, threw: bool)

  function CleanupAsWritten(connectionsMap: map<string, seq<string>>, clientId: string, socketId: string): (r: CleanupOutcome)
    ensures r.threw <==> forall k | 0 <= k < |Registered(connectionsMap, clientId)| :: Registered(connectionsMap, clientId)[k] == socketId
    ensures clientId !in r.connectionsMap <==> r.threw
  {
    var rest := Without(Registered(connectionsMap, clientId), socketId);
    WithoutEmptyIff(Registered(connectionsMap, clientId), socketId);
    if rest == [] then CleanupOutcome(connectionsMap - {clientId}, true)
    else CleanupOutcome(connectionsMap[clientId := rest], false)
  }

  /** A client with a single tab that closes it: the cleanup timer throws. */
  lemma LastConnectionThrowsAsWritten(clientId: string, socketId: string)
    ensures CleanupAsWritten(map[clientId := [socketId]], clientId, socketId).threw
  {
  }
}
