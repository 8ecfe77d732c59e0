# klokey key-custody core in Dafny

klokey watches the key to a shared washroom. An RFID sensor reports whether the
key is on its board, and a web server tracks the key through three conditions:
present, taken, and missing (taken for longer than the missing timeout). People
who want the key next join a reservation queue. When the key is on the board,
the client at the head of the queue gets a hold for the queue timeout. Taking the
key serves that client, and a hold that runs out hands the key to the next client
in line. Browsers connect over socket.io. One client may have several tabs open.
A client whose last tab closes is meant to leave the queue after a short cleanup
delay; as written, that cleanup throws before it removes anyone (see "## Findings").
A HipChat integration pushes a status "glance" to the rooms where it is installed.
It is meant to notify them when the key goes missing and when it comes back, but
as written its `doSendNotification` flag is off, so it never does (see the
paragraph on `doSendNotification` below).

The project models that core:

- `common.dfy` defines `Option`.
- `decimal.dfy` renders a natural number as JavaScript prints it in a string (below 10^21, where JavaScript switches to exponent notation), and parses it back.
- `reservations.dfy` models the queue entries and the operations on them: the
  `_.reject` filter, the stamping done by `updateQueueTimer`, and the remaining
  time written by `calcQueueRemainingTime`.
- `registry.dfy` holds the per-client connection lists of `clientConnectionsMap`.
- `custody.dfy` holds the published `state`, the broadcast events, and the timer
  service: `setTimeout`/`clearTimeout` as a map of pending callbacks by handle.
  It also states the invariants the server keeps, as functions of values with
  lemmas about them.
- `hipchat.dfy` models `statusContentFromState`, the store keys, and the object
  `hipchat.init` returns. That object is a class with the `wasMissing` latch and
  logs of the glances and notifications it would send.
- `server.dfy` is the server itself: the class `KeyServer`, whose fields are
  `state`, the `internalState` fields, the pending timers, and the broadcast log.
  Each handler of server.js is a method. Every handler keeps the invariant
  `Valid()`, and its `ensures` state the new state exactly, through a two-state
  predicate per handler (`Enqueued`, `Removed`, `Took`, `Returned`,
  `MarkedMissing`, `MailSent`, `HoldExpired`, `CleanedUp`, `Idle`). The
  dispatchers (`Switch`, the sensor events, `Fire`) promise the predicate of the
  handler they run. A timer firing is `Fire`, which runs the callback the handle
  was armed with.

`Valid()` says:

- a present key is neither missing nor has a take time, and a missing key was taken;
- a taken key with a take time has its missing check pending; a mail timer is pending only while the key is missing;
- the queue has no client twice;
- only the head can hold an expiry, and it holds one exactly while the key is present;
- exactly one queue timer is pending while the key is present and somebody waits,
  and none at other times; that timer belongs to the head and is due when the head's hold ends;
- the integration's `wasMissing` latch is set exactly while the key is missing.

The HipChat module fixes `doSendNotification` to `false` at hipchat.js:13. The
model takes it as a constructor parameter, so notifications are covered with
the flag on and off. server.js passes its published `state` to the integration.
That object never carries `keyTakenOn` (see Findings). `KeyServer.View()` adds
`keyTakenOn`, which is the intended behaviour; `ViewAsWired` models the code as
written.

## Model

| member | source | states |
|---|---|---|
| Decimal.NatToString | hipchat.js:340-341 | the number in a queue-length label is a non-empty string of digits, with no leading zero, and more than one digit from 10 on |
| Decimal.ParseRendered | hipchat.js:340-341 | reading the rendered number back gives the number |
| Decimal.RenderInjective | hipchat.js:340-341 | distinct numbers render differently |
| Hipchat.StatusContentFromState | hipchat.js:333-365 | the glance is titled "Kloschlüssel" in html, is a lozenge, and shows the state's status value |
| Hipchat.StatusValueFromState | hipchat.js:336-353 | the colour is success exactly for a present key with nobody waiting, error exactly for a missing key, moved exactly for an absent key with no take time, current otherwise; a present key with exactly one client waiting reads exactly RESERVIERT, and with more waiting the text starts with RESERVIERT |
| Hipchat.StatusRoundTrip | hipchat.js:336-353 | the lozenge text and colour determine the situation: free, reserved by n, missing, unclear, occupied; a count is shown only for more than one waiting client, as "RESERVIERT (n)" with n a plain numeral without leading zero |
| Hipchat.SameGlanceIffSameSituation | hipchat.js:333-365 | two states show the same glance if and only if they are in the same situation |
| Hipchat.FirstIndexOf | hipchat.js:273-275 | finds the first occurrence of a character, or reports that there is none |
| Hipchat.GetStoreKey | hipchat.js:273-275 | the key is the group id in digits, then the first "#", then the room id in digits |
| Hipchat.StoreKeyRoundTrip | hipchat.js:273-275 | the key `groupId#roomId` splits back into its group and room ids |
| Hipchat.StoreKeyInjective | hipchat.js:273-275 | distinct rooms never share a store key |
| Hipchat.Integration.constructor | hipchat.js:13-19 | the latch is clear, nothing has been sent yet, and the store is what data.json held |
| Hipchat.Integration.SendNotification | hipchat.js:156-173 | a notification is sent only while `doSendNotification` is on |
| Hipchat.Integration.SendGlanceUpdate | hipchat.js:176-201 | pushes the glance for the current state |
| Hipchat.Integration.NotifyKeyTaken | hipchat.js:206-208 | pushes the glance |
| Hipchat.Integration.NotifyKeyMissing | hipchat.js:210-241 | sets the latch, pushes the glance, and sends "Schlüssel weg" when notifications are on |
| Hipchat.Integration.NotifyKeyReturned | hipchat.js:243-254 | pushes the glance; sends "Schlüssel zurück" only if the latch was set and notifications are on; clears the latch |
| Hipchat.Integration.NotifyReservationQueued | hipchat.js:256-258 | pushes the glance |
| Hipchat.Integration.NotifyReservationRemoved | hipchat.js:260-262 | pushes the glance |
| Hipchat.Integration.StoreInstallData | hipchat.js:277-286 | the room's entry under its store key is replaced by the install data, dropping any token; other rooms are unchanged |
| Hipchat.Integration.StoreAuthData | hipchat.js:288-295 | a known key gets the token and nothing else changes; an unknown key changes nothing |
| Registry.Without | server.js:497-501 | splicing a socket out keeps exactly the other sockets |
| Registry.WithoutSuffix | server.js:497-501 | cleaning a suffix from position i is element i, unless it is the socket, followed by the cleaned rest |
| Registry.WithoutEmptyIff | server.js:503-506 | a list becomes empty if and only if every connection in it was that socket |
| Registry.WithoutAppend | server.js:497-501 | splicing out of a concatenation is splicing out of each part |
| Registry.WithoutAbsent | server.js:497-501 | a list without the socket is unchanged |
| Registry.SpliceStep | server.js:497-501 | one backward step of the splice loop extends the cleaned suffix by one position |
| Reservations.ClientIds | server.js:201 | the clients in queue order, one per entry |
| Reservations.Reject | server.js:216-218 | keeps exactly the entries of other clients, never growing the queue |
| Reservations.RejectChangesIffQueued | server.js:215-221 | the length changes if and only if the client was queued; otherwise the queue is unchanged |
| Reservations.RejectIdempotent | server.js:216-218 | removing a client twice is removing it once |
| Reservations.RejectMovesForward | server.js:216-218 | survivors only move towards the head |
| Reservations.TailNoDuplicates | server.js:201 | the tail of a queue without duplicates has none |
| Reservations.RejectHead | server.js:216-218 | in a queue without duplicates, removing the head's client removes exactly the head |
| Reservations.RejectUnique | server.js:216-218 | in a queue without duplicates, removing the client at k removes exactly position k |
| Reservations.HeadNotInTail | server.js:201 | the head's client is not in the filtered tail |
| Reservations.RejectNoDuplicates | server.js:216-218 | removal never introduces a duplicate |
| Reservations.AppendNoDuplicates | server.js:201-202 | appending a client that is not queued keeps the queue free of duplicates |
| Reservations.Restamp | server.js:236-252 | keeps clients and remaining times; clears every expiry except the head's while the key is present; keeps an existing hold; gives a fresh hold to a head without one |
| Reservations.RestampIdempotent | server.js:236-252 | a second stamping at the same instant changes nothing |
| Reservations.WithRemainingTime | server.js:190-198 | only the head's remaining time changes: its expiry minus now, or none |
| Reservations.RejectKeepsTailUnstamped | server.js:216-218 | after a removal only the head can hold an expiry, and a head that holds one was already the head |
| Reservations.RestampEstablishesShape | server.js:229-255 | stamping and then computing the remaining time leaves exactly the head holding an expiry, and only while the key is present |
| Reservations.RemainingTimeKeepsEntries | server.js:190-198 | computing the remaining time changes no client, expiry or hold length |
| Reservations.RemainingTimeKeepsShape | server.js:190-198 | computing the remaining time keeps the expiry layout |
| Reservations.ShapeHasUnstampedTail | server.js:236-252 | in a settled queue nobody but the head holds an expiry, and the tail holds none |
| Reservations.IdleQueueUnchanged | server.js:229-255 | with the key away and no holds, stamping and computing the remaining time leave the queue as it is |
| Reservations.HoldGranted | server.js:239-246 | when the key comes back, the head alone gets a hold of the queue timeout starting now |
| Reservations.InQueueIds | server.js:201 | a client is queued if and only if it is among the queue's clients |
| Reservations.ClientIdsAppend | server.js:202 | the clients of a concatenation are the clients of each part in turn |
| Custody.Clock.Arm | server.js:241-243 | `setTimeout` schedules the callback under the next handle; handles stay issued in order, and clearing the new handle leaves the earlier timers as they were |
| Custody.Clock.Cancel | server.js:232 | `clearTimeout` removes exactly that handle; the other handles and the next handle are kept |
| Custody.Clock.CancelKeepsOthers | server.js:232 | `clearTimeout` leaves every other timer with its callback and due time |
| Custody.QueueTimerUpdate | server.js:229-247 | a head that needs a hold gets a fresh queue timer due at now plus the queue timeout; otherwise an obsolete timer is cleared and forgotten, and a timer still backed by a hold is kept untouched |
| Custody.Settle | server.js:229-255 | the queue keeps its clients in order and the key fields; only the head can hold an expiry, and only while the key is present; a head without a hold gets one due at now plus the queue timeout, with the new handle |
| Custody.Removal | server.js:214-227 | the key fields are kept; the clients left are those of the filtered queue, in order; a client that is not queued changes nothing, and a queued one shortens the queue |
| Custody.QueueTimerUpdateKeepsOthers | server.js:229-255 | `updateQueueTimer` touches only queue timers and issues handles afresh |
| Custody.OtherTimerKeepsQueueTimers | server.js:395-397 | arming or clearing a timer that is not a queue timer keeps the queue-timer invariants |
| Custody.MissingTimerInvariantFrame | server.js:200-227 | queue work that leaves the other timers alone keeps the key's invariants |
| Custody.SettledIsTracked | server.js:229-255 | a settled queue is what `updateQueueTimer` expects to find |
| Custody.SettleRestoresQueue | server.js:229-255 | `updateQueueTimer` then `calcQueueRemainingTime` settle the queue, keep its clients and key fields, and touch only queue timers |
| Custody.RemovalRestoresQueue | server.js:214-227 | `removeFromQueue` settles a settled queue, or one whose head is leaving, and leaves other timers alone |
| Custody.AppendRestoresQueue | server.js:200-212 | `addToQueue` settles the queue, adds the client last, and leaves other timers alone |
| Custody.RemainingTimeKeepsSettled | server.js:190-198 | `calcQueueRemainingTime` keeps a settled queue settled |
| Custody.TakeArmsMissingCheck | server.js:386-397 | taking a present key and arming the missing check keeps the key's invariants; the head, if any, is leaving |
| Custody.TakeRemovesHead | server.js:399-401 | once the key is taken, removing the head drops exactly the head and clears its queue timer; nobody gets a hold |
| Custody.RemovalConsistent | server.js:214-227 | `removeFromQueue` restores the whole invariant and changes only the queue |
| Custody.ExpiryHandsOver | server.js:378-384 | an expiring queue timer belongs to the head; removing the head hands a fresh hold and timer to the next client, if any |
| Server.RestampAt | server.js:236-252 | position i of the stamped queue is entry i stamped on its own |
| Server.KeyServer.View | server.js:188 | the integration is shown whether the key is present and whether it is missing, the queue length, and the time the key was taken |
| Server.KeyServer.constructor | server.js:105-126 | the key counts as taken, no take time, no timers, no connections; debug mode shortens the three delays |
| Server.KeyServer.CalcQueueRemainingTime | server.js:190-198 | the head's remaining time is set from its expiry; nothing else changes |
| Server.KeyServer.UpdateQueueTimer | server.js:229-255 | the queue is stamped as by `Restamp`, and the timers are updated as `updateQueueTimer` does |
| Server.KeyServer.SettleQueue | server.js:220-221 | runs the two queue updates in sequence |
| Server.KeyServer.AddToQueue | server.js:200-212 | adds the client if and only if it was not queued; then the client goes last, the queue settles as by `Settle`, and the reservation is broadcast and its glance pushed; otherwise nothing changes (`Enqueued`) |
| Server.KeyServer.RemoveFromQueue | server.js:214-227 | the queue, queue timer and timers become the result of `Removal`; the removal is broadcast and its glance pushed exactly when the client was queued (`Removed`); keeps `Valid()` |
| Server.KeyServer.RejectEntries | server.js:214-227 | the steps of removeFromQueue, without the invariant: the same new state (`Removed`) |
| Server.KeyServer.OnQueueTimerExpired | server.js:378-384 | the expired client is the head and leaves without success; the next client gets a hold and a timer; nothing else changes (`HoldExpired`) |
| Server.KeyServer.ExpireHold | server.js:378-384 | the fired timer is gone and its client is removed as by `Removal`, broadcast without success |
| Server.KeyServer.OnKeyTaken | server.js:386-409 | a present key becomes taken now, with the missing check armed; the head is served and leaves with success; the queue timer goes; the glance reads BESETZT; a key that is not present changes nothing (`Took`) |
| Server.KeyServer.LeaveBoard | server.js:392-397 | the key is no longer present, taken now, with its missing check armed; the head, if any, is leaving |
| Server.KeyServer.ServeHead | server.js:399-401 | the head leaves the queue with success; its queue timer is cleared |
| Server.KeyServer.AnnounceTake | server.js:403-406 | with nobody holding the key the queue stays as it is; the take is broadcast and the glance reads BESETZT |
| Server.KeyServer.OnKeyWentMissing | server.js:411-426 | the key is missing since now; the mail timer replaces the check; the glance reads VERMISST; "key gone" is sent when notifications are on; nothing else changes (`MarkedMissing`) |
| Server.KeyServer.AnnounceMissing | server.js:421-424 | the queue stays as it is; the loss is broadcast, latched, shown as VERMISST and sent when notifications are on |
| Server.KeyServer.OnKeyMissingMail | server.js:428-439 | the mail timer is consumed; outside debug mode a mail reports the take time; nothing else changes (`MailSent`) |
| Server.KeyServer.OnKeyReturned | server.js:441-464 | the key is present, not missing, with no take time; the missing timer is cleared; the head gets a hold; "key back" is sent only after a miss; a present key changes nothing (`Returned`) |
| Server.KeyServer.BackOnBoard | server.js:447-454 | the key is present, neither taken nor missing, and its missing timer is cleared; the key's invariants hold |
| Server.KeyServer.GrantHold | server.js:456-457 | with the key back, the head, if any, is granted a hold of the queue timeout and its queue timer; the invariant is restored |
| Server.KeyServer.Switch | server.js:177-186 | a present key is taken exactly as `OnKeyTaken` does (`Took`), an absent one returned exactly as `OnKeyReturned` does (`Returned`); the reply is the new state |
| Server.KeyServer.OnRfidWatchdogExpired | server.js:364-369 | outside debug mode the key is taken exactly as `OnKeyTaken` does (`Took`); in debug mode nothing changes (`Idle`) |
| Server.KeyServer.OnRfidDataReceived | server.js:372-376 | outside debug mode an absent key returns exactly as `OnKeyReturned` does (`Returned`); in debug mode, or with the key present, nothing changes |
| Server.KeyServer.OnEnqueueRequest | server.js:466-477 | the client is queued exactly as `addToQueue` does (`Enqueued`); afterwards it is queued; replies DONE! when it was added and FAIL! when it already was queued |
| Server.KeyServer.OnLeaveQueueRequest | server.js:479-485 | the client is removed exactly as `removeFromQueue` does (`Removed`); afterwards it is not queued and the others keep their order; the reply is always DONE! |
| Server.KeyServer.GetConnectionList | server.js:487-493 | returns the client's list, creating an empty one on first use |
| Server.KeyServer.RemoveFromConnectionList | server.js:495-509 | splices the socket out of the client's list; deletes a list left empty and answers true exactly then |
| Server.KeyServer.Connect | server.js:511-529 | the socket joins its client's list; the client is greeted with the state and its id |
| Server.KeyServer.Disconnect | server.js:555-564 | arms the cleanup for the socket, CLEANUP_DELAY from now |
| Server.KeyServer.CleanUpConnection | server.js:559-563 | the socket leaves the list; a client with no connection left that is not a HipChat user is removed as by `Removal`, broadcast and shown only if it was queued; nothing else changes (`CleanedUp`) |
| Server.KeyServer.DropConnection | server.js:559-563 | the steps of the cleanup, without the invariant: the same new state (`CleanedUp`) |
| Server.KeyServer.Fire | server.js:241-243 | runs the callback the handle was armed with: the queue timer here ends the hold (`HoldExpired`); likewise the missing check armed at server.js:395-397 (`MarkedMissing`), the mail timer armed at server.js:417-419 (`MailSent`) and the cleanup armed at server.js:559-564 (`CleanedUp`); a handle that is no longer pending does nothing |
| Server.RejectIds | server.js:216-218 | the clients left after a removal are the queue's clients with that client spliced out |
| Server.LeaveUndoesEnqueue | server.js:200-227 | enqueueing a client that is not queued and then removing it restores the queue's clients |
| Server.EnqueueThenLeave | server.js:466-485 | REQ_ENQUEUE then REQ_LEAVE_QUEUE from a client that is not queued restore the queue's clients, by `LeaveUndoesEnqueue`, and broadcast the reservation and then its removal |
| Server.ViewAsWired | server.js:188 | the integration's view of the published state has no take time |
| Server.TakenKeyUnclearAsWired | hipchat.js:346-349 | as wired, a taken key that is not missing always reads UNKLAR |
| Server.TakenKeyOccupied | hipchat.js:346-351 | with the take time passed along, a taken key that is not missing reads BESETZT |
| Server.CleanupAsWritten | server.js:559-563 | the cleanup throws exactly when the client's list held only that socket, and the list is deleted exactly then |
| Server.LastConnectionThrowsAsWritten | server.js:559-563 | closing a client's only tab makes the cleanup throw |

## Left out

- Transport: express, socket.io, sessions and the TLS server are left out. Handlers take the client id and socket id as parameters. A broadcast is an entry in `events`, and a reply is a return value.
- `publisher.publish`, logging, `updateDisplayState`, the LED animations (anim.js, display.js) and web/app.js are outside this model.
- sensor.js is left out: the serial port and the RFID watchdog timer are not modelled. Its two events are the methods `OnRfidWatchdogExpired` and `OnRfidDataReceived`.
- Server.KeyServer.OnKeyMissingMail: the mailer and the humanized duration are not modelled. The mail is logged as the time the key was taken.
- HipChat networking is left out: the REST calls, OAuth token refresh (`checkToken`, `updateToken`), JWT handling, the HTTP routes, and reading and writing data.json. `storeData` is a field of the integration.
- Hipchat.Integration.SendNotification: records one notification per call while `doSendNotification` is on. hipchat.js:156-173 posts it once per installed room, after that room's token check resolves, and posts nothing when no room is installed; that fan-out and its asynchrony are not modelled.
- Hipchat.Integration.SendGlanceUpdate: records one glance, computed at call time. hipchat.js:177-200 computes the content per installed room, later, once that room's token check resolves, and sends nothing when no room is installed; that per-room asynchrony is not modelled.
- Time: each handler takes a single `now`. server.js reads the clock separately in each place, so the instants can differ by milliseconds.
- Timer handles are naturals and are never falsy. In server.js a handle or a timestamp of 0 would read as unset; that cannot happen in Node.
- `handleSocketJwt` is left out. server.js:520-526 calls it when the referer carries a `signed_request`, and the object hipchat.js returns does not define it either. The referer header is not part of the model.
- The `clientId` reassignment at server.js:532 is left out. The message handler re-reads the session's client id; the model uses the id given at connection.
- `replyFn` is optional in server.js. The model always returns the reply.
- JSON serialisation is left out: `undefined` properties of queue entries are `None`.

## Findings

| source | as written | input that shows it | evidently intended | confidence | as-written member | corrected member |
|---|---|---|---|---|---|---|
| hipchat.js:348, server.js:188 | the integration gets the published `state`, which has no `keyTakenOn` because server.js:394 stores it in `internalState`, so a taken key always shows UNKLAR | take the key while it is present | a taken key that is not missing shows BESETZT | high, not executed | Server.TakenKeyUnclearAsWired | Server.KeyServer.OnKeyTaken |
| server.js:560 | the cleanup calls `hipchatIntegration.isHipchatUser`, which the object from hipchat.js:203-263 does not define, so the timer callback throws a TypeError; nothing catches it, so the Node process exits and the queue, the key's state and the registry, all held in memory, are lost | a client with one tab that is enqueued closes the tab | a client whose last tab closes, and who is not a HipChat user, leaves the queue | high, not executed | Server.LastConnectionThrowsAsWritten | Server.KeyServer.CleanUpConnection |
