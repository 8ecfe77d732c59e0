/** The reservation queue of server.js as values: its entries, the filter that
    removeFromQueue applies, the head stamping that updateQueueTimer's loop
    performs, and the remaining time calcQueueRemainingTime adds for a broadcast.
    All times are milliseconds. */
module Reservations {
  import opened Common

  /** One queue entry `{clientId, expires, expiryTime, expiresIn}`: `expires` is the
      absolute deadline of the head's hold, `expiryTime` the length of the hold and
      `expiresIn` the time left, computed just before each broadcast. */
  datatype Entry = Entry(clientId: string, expires: Option<int>, expiryTime: Option<int>, expiresIn: Option<int>)

  /** The entry `{clientId: clientId}` that addToQueue pushes. */
  function NewEntry(clientId: string): Entry {
    Entry(clientId, None, None, None)
  }

  predicate InQueue(q: seq<Entry>, clientId: string) {
    exists i | 0 <= i < |q| :: q[i].clientId == clientId
  }

  predicate NoDuplicates(q: seq<Entry>) {
    forall i, j | 0 <= i < j < |q| :: q[i].clientId != q[j].clientId
  }

  function ClientIds(q: seq<Entry>): (ids: seq<string>)
    ensures |ids| == |q|
  {
    seq(|q|, i requires 0 <= i < |q| => q[i].clientId)
  }

  /** `_.reject(queue, entry => entry.clientId === clientId)`: every entry of that
      client goes, every other entry stays. */
  function Reject(q: seq<Entry>, clientId: string): (r: seq<Entry>)
    ensures |r| <= |q|
    ensures forall e :: e in r <==> e in q && e.clientId != clientId
  {
    if q == [] then []
    else (if q[0].clientId == clientId then [] else [q[0]]) + Reject(q[1..], clientId)
  }

  /** A client is queued when it is the head or queued in the tail. */
  lemma InQueueStep(q: seq<Entry>, clientId: string)
    requires q != []
    ensures InQueue(q, clientId) <==> q[0].clientId == clientId || InQueue(q[1..], clientId)
  {
    if InQueue(q, clientId) && q[0].clientId != clientId {
      var i :| 0 <= i < |q| && q[i].clientId == clientId;
      assert q[1..][i - 1].clientId == clientId;
    }
    if InQueue(q[1..], clientId) {
      var i :| 0 <= i < |q[1..]| && q[1..][i].clientId == clientId;
      assert q[i + 1].clientId == clientId;
    }
  }

  /** The length changes exactly when the client was queued; otherwise nothing changes. */
  lemma {:induction false} RejectChangesIffQueued(q: seq<Entry>, clientId: string)
    ensures |Reject(q, clientId)| == |q| <==> !InQueue(q, clientId)
    ensures !InQueue(q, clientId) ==> Reject(q, clientId) == q
  {
    if q != [] {
      RejectChangesIffQueued(q[1..], clientId);
      InQueueStep(q, clientId);
      assert Reject(q, clientId) == (if q[0].clientId == clientId then [] else [q[0]]) + Reject(q[1..], clientId);
      if !InQueue(q, clientId) {
        assert [q[0]] + q[1..] == q;
      }
    }
  }

  /** Removing twice is removing once. */
  lemma RejectIdempotent(q: seq<Entry>, clientId: string)
    ensures Reject(Reject(q, clientId), clientId) == Reject(q, clientId)
  {
    var r := Reject(q, clientId);
    forall i | 0 <= i < |r| ensures r[i].clientId != clientId {
      assert r[i] in r;
    }
    RejectChangesIffQueued(r, clientId);
  }

  /** Survivors only move towards the head: the entry now at `i` stood at `i` or later. */
  lemma {:induction false} RejectMovesForward(q: seq<Entry>, clientId: string)
    ensures forall i | 0 <= i < |Reject(q, clientId)| :: Reject(q, clientId)[i] in q[i..]
  {
    if q != [] {
      RejectMovesForward(q[1..], clientId);
      var r, rest := Reject(q, clientId), Reject(q[1..], clientId);
      forall i | 0 <= i < |r| ensures r[i] in q[i..] {
        if q[0].clientId == clientId {
          assert r[i] == rest[i] && r[i] in q[1..][i..];
          assert q[1..][i..] == q[i + 1..];
        } else if i > 0 {
          assert r[i] == rest[i - 1] && r[i] in q[1..][i - 1..];
          assert q[1..][i - 1..] == q[i..];
        }
      }
    }
  }

  lemma TailNoDuplicates(q: seq<Entry>)
    requires |q| > 0 && NoDuplicates(q)
    ensures NoDuplicates(q[1..])
  {
    forall i, j | 0 <= i < j < |q[1..]| ensures q[1..][i].clientId != q[1..][j].clientId {
      assert q[1..][i] == q[i + 1] && q[1..][j] == q[j + 1];
    }
  }

  /** In a queue without duplicates, removing the head's client removes exactly the
      head. */
  lemma RejectHead(q: seq<Entry>)
    requires |q| > 0 && NoDuplicates(q)
    ensures Reject(q, q[0].clientId) == q[1..]
  {
    var c := q[0].clientId;
    forall i | 0 <= i < |q[1..]| ensures q[1..][i].clientId != c {
      assert q[1..][i] == q[i + 1];
    }
    RejectChangesIffQueued(q[1..], c);
  }

  /** Cutting position `k` out of a queue is keeping its head and cutting position
      `k - 1` out of its tail. */
  lemma CutPosition(q: seq<Entry>, k: nat)
    requires 0 < k < |q|
    ensures q[..k] + q[k + 1..] == [q[0]] + (q[1..][..k - 1] + q[1..][k..])
  {
    assert q[..k] == [q[0]] + q[1..][..k - 1];
    assert q[k + 1..] == q[1..][k..];
  }

  /** In a queue without duplicates, removing a queued client removes exactly its
      entry and keeps the others in their order. */
  lemma {:induction false} RejectUnique(q: seq<Entry>, k: nat)
    requires k < |q| && NoDuplicates(q)
    ensures Reject(q, q[k].clientId) == q[..k] + q[k + 1..]
  {
    if k == 0 {
      RejectHead(q);
    } else {
      var c := q[k].clientId;
      assert q[0].clientId != c;
      TailNoDuplicates(q);
      assert q[1..][k - 1] == q[k];
      RejectUnique(q[1..], k - 1);
      CutPosition(q, k);
    }
  }

  /** Removing entries never introduces a duplicate. */
  lemma HeadNotInTail(q: seq<Entry>, clientId: string)
    requires |q| > 0 && NoDuplicates(q)
    ensures forall k | 0 <= k < |Reject(q[1..], clientId)| :: Reject(q[1..], clientId)[k].clientId != q[0].clientId
  {
    var rest := Reject(q[1..], clientId);
    forall k | 0 <= k < |rest| ensures rest[k].clientId != q[0].clientId {
      assert rest[k] in rest;
      assert rest[k] in q[1..];
      var m :| 0 <= m < |q[1..]| && q[1..][m] == rest[k];
      assert q[m + 1] == rest[k];
    }
  }

  lemma {:induction false} RejectNoDuplicates(q: seq<Entry>, clientId: string)
    requires NoDuplicates(q)
    ensures NoDuplicates(Reject(q, clientId))
  {
    if q != [] {
      var rest := Reject(q[1..], clientId);
      TailNoDuplicates(q);
      RejectNoDuplicates(q[1..], clientId);
      if q[0].clientId != clientId {
        HeadNotInTail(q, clientId);
        var r := [q[0]] + rest;
        assert Reject(q, clientId) == r;
        forall i, j | 0 <= i < j < |r| ensures r[i].clientId != r[j].clientId {
          assert r[j] == rest[j - 1];
          if i > 0 {
            assert r[i] == rest[i - 1];
          }
        }
      }
    }
  }

  /** Appending an entry of a client not yet queued keeps the queue free of duplicates. */
  lemma AppendNoDuplicates(q: seq<Entry>, clientId: string)
    requires NoDuplicates(q) && !InQueue(q, clientId)
    ensures NoDuplicates(q + [NewEntry(clientId)])
  {
    var r := q + [NewEntry(clientId)];
    forall i, j | 0 <= i < j < |r| ensures r[i].clientId != r[j].clientId {
      if j == |q| {
        assert r[i] == q[i];
      }
    }
  }

  /** One step of updateQueueTimer's loop: the head keeps or gets a hold while the
      key is present, every other entry loses its hold. */
  function StampAt(e: Entry, holdsHead: bool, now: int, queueTimeout: int): Entry {
    if holdsHead then
      (if e.expires.None? then e.(expiryTime := Some(queueTimeout), expires := Some(now + queueTimeout)) else e)
    else e.(expiryTime := None, expires := None)
  }

  /** The queue as updateQueueTimer leaves it. */
  function Restamp(q: seq<Entry>, keyPresent: bool, now: int, queueTimeout: int): (r: seq<Entry>)
    ensures |r| == |q|
    ensures forall i | 0 <= i < |q| :: r[i].clientId == q[i].clientId && r[i].expiresIn == q[i].expiresIn
    ensures forall i | 0 <= i < |q| && (i > 0 || !keyPresent) :: r[i].expires.None? && r[i].expiryTime.None?
    ensures keyPresent && |q| > 0 && q[0].expires.Some? ==> r[0] == q[0]
    ensures keyPresent && |q| > 0 && q[0].expires.None? ==>
      r[0].expires == Some(now + queueTimeout) && r[0].expiryTime == Some(queueTimeout)
  {
    seq(|q|, i requires 0 <= i < |q| => StampAt(q[i], i == 0 && keyPresent, now, queueTimeout))
  }

  /** Restamping twice at the same instant is restamping once: a second
      updateQueueTimer neither moves the deadline nor clears anything. */
  lemma RestampIdempotent(q: seq<Entry>, keyPresent: bool, now: int, queueTimeout: int)
    ensures Restamp(Restamp(q, keyPresent, now, queueTimeout), keyPresent, now, queueTimeout)
         == Restamp(q, keyPresent, now, queueTimeout)
  {
  }

  /** `expiresIn` as calcQueueRemainingTime sets it on the head at time `now`. */
  function RemainingTime(e: Entry, now: int): Option<int> {
    if e.expires.Some? then Some(e.expires.value - now) else None
  }

  /** The queue after calcQueueRemainingTime: only the head's `expiresIn` changes. */
  function WithRemainingTime(q: seq<Entry>, now: int): (r: seq<Entry>)
    ensures |r| == |q| && (|q| > 0 ==> r[1..] == q[1..])
    ensures |q| > 0 ==> r[0] == q[0].(expiresIn := RemainingTime(q[0], now))
  {
    if |q| == 0 then q else q[0 := q[0].(expiresIn := RemainingTime(q[0], now))]
  }

  /** The expiry layout that updateQueueTimer establishes: exactly the head holds an
      expiry, and only while the key is present; a hold always lasts `queueTimeout`;
      an entry without a deadline has no remaining time either. */
  predicate ExpiryShape(q: seq<Entry>, keyPresent: bool, queueTimeout: int) {
    forall i | 0 <= i < |q| ::
      && (q[i].expires.Some? <==> i == 0 && keyPresent)
      && q[i].expiryTime == (if q[i].expires.Some? then Some(queueTimeout) else None)
      && (q[i].expires.None? ==> q[i].expiresIn.None?)
  }

  /** The weaker layout in between: nobody but the head holds an expiry, whatever the
      key does. */
  predicate TailUnstamped(q: seq<Entry>, queueTimeout: int) {
    forall i | 0 <= i < |q| ::
      && (i > 0 ==> q[i].expires.None?)
      && q[i].expiryTime == (if q[i].expires.Some? then Some(queueTimeout) else None)
      && (q[i].expires.None? ==> q[i].expiresIn.None?)
  }

  /** An entry found at position `i` or later of a queue with an unstamped tail has
      the layout of that position: only the head can hold an expiry. */
  lemma UnstampedFrom(q: seq<Entry>, queueTimeout: int, e: Entry, i: nat)
    requires TailUnstamped(q, queueTimeout) && i <= |q| && e in q[i..]
    ensures i > 0 ==> e.expires.None?
    ensures e.expiryTime == (if e.expires.Some? then Some(queueTimeout) else None)
    ensures e.expires.None? ==> e.expiresIn.None?
    ensures i == 0 && e.expires.Some? ==> e == q[0]
  {
    var m :| 0 <= m < |q[i..]| && q[i..][m] == e;
    assert q[i + m] == e;
  }

  /** Removing entries keeps the tail unstamped, and a stamped head after a removal
      is the old head. */
  lemma RejectKeepsTailUnstamped(q: seq<Entry>, clientId: string, queueTimeout: int)
    requires TailUnstamped(q, queueTimeout)
    ensures TailUnstamped(Reject(q, clientId), queueTimeout)
    ensures |Reject(q, clientId)| > 0 && Reject(q, clientId)[0].expires.Some? ==>
      |q| > 0 && Reject(q, clientId)[0] == q[0]
  {
    var r := Reject(q, clientId);
    RejectMovesForward(q, clientId);
    forall i | 0 <= i < |r|
      ensures i > 0 ==> r[i].expires.None?
      ensures r[i].expiryTime == (if r[i].expires.Some? then Some(queueTimeout) else None)
      ensures r[i].expires.None? ==> r[i].expiresIn.None?
      ensures i == 0 && r[i].expires.Some? ==> r[i] == q[0]
    {
      UnstampedFrom(q, queueTimeout, r[i], i);
    }
  }

  /** Restamping a queue whose tail is unstamped, then computing the remaining time,
      gives the shape of ExpiryShape. */
  lemma RestampEstablishesShape(q: seq<Entry>, keyPresent: bool, now: int, queueTimeout: int)
    requires TailUnstamped(q, queueTimeout)
    ensures ExpiryShape(WithRemainingTime(Restamp(q, keyPresent, now, queueTimeout), now), keyPresent, queueTimeout)
  {
    RemainingTimeKeepsEntries(Restamp(q, keyPresent, now, queueTimeout), now);
  }

  /** calcQueueRemainingTime changes no client, deadline or hold, and only the head. */
  lemma RemainingTimeKeepsEntries(q: seq<Entry>, now: int)
    ensures forall i | 0 <= i < |q| ::
      && WithRemainingTime(q, now)[i].clientId == q[i].clientId
      && WithRemainingTime(q, now)[i].expires == q[i].expires
      && WithRemainingTime(q, now)[i].expiryTime == q[i].expiryTime
      && (i > 0 ==> WithRemainingTime(q, now)[i] == q[i])
  {
    var r := WithRemainingTime(q, now);
    forall i | 0 < i < |q| ensures r[i] == q[i] {
      assert r[i] == r[1..][i - 1];
    }
  }

  /** calcQueueRemainingTime keeps the layout: it writes `expiresIn` on a head with a
      deadline only. */
  lemma RemainingTimeKeepsShape(q: seq<Entry>, keyPresent: bool, now: int, queueTimeout: int)
    requires ExpiryShape(q, keyPresent, queueTimeout)
    ensures ExpiryShape(WithRemainingTime(q, now), keyPresent, queueTimeout)
  {
    RemainingTimeKeepsEntries(q, now);
  }

  /** The head at the moment it is granted its hold at time `now`. */
  function Held(e: Entry, now: int, queueTimeout: int): Entry {
    e.(expires := Some(now + queueTimeout), expiryTime := Some(queueTimeout), expiresIn := Some(queueTimeout))
  }

  lemma ShapeHasUnstampedTail(q: seq<Entry>, keyPresent: bool, queueTimeout: int)
    requires ExpiryShape(q, keyPresent, queueTimeout)
    ensures TailUnstamped(q, queueTimeout)
    ensures |q| > 0 ==> ExpiryShape(q[1..], false, queueTimeout)
  {
    if |q| > 0 {
      forall i | 0 <= i < |q[1..]| ensures q[1..][i] == q[i + 1] {
      }
    }
  }

  /** When nobody holds an expiry and the key stays away, updateQueueTimer and
      calcQueueRemainingTime change nothing. */
  lemma IdleQueueUnchanged(q: seq<Entry>, now: int, queueTimeout: int)
    requires ExpiryShape(q, false, queueTimeout)
    ensures Restamp(q, false, now, queueTimeout) == q
    ensures WithRemainingTime(q, now) == q
  {
  }

  /** When the key comes back to a queue without holds, the head alone is granted a
      hold of `queueTimeout` from now, and nothing else changes. */
  lemma HoldGranted(q: seq<Entry>, now: int, queueTimeout: int)
    requires ExpiryShape(q, false, queueTimeout)
    ensures WithRemainingTime(Restamp(q, true, now, queueTimeout), now)
         == if |q| > 0 then [Held(q[0], now, queueTimeout)] + q[1..] else q
  {
    var r := Restamp(q, true, now, queueTimeout);
    if |q| > 0 {
      assert r[1..] == q[1..];
    }
  }

  lemma InQueueIds(q: seq<Entry>, clientId: string)
    ensures InQueue(q, clientId) <==> clientId in ClientIds(q)
  {
    if clientId in ClientIds(q) {
      var i :| 0 <= i < |q| && ClientIds(q)[i] == clientId;
      assert q[i].clientId == clientId;
    }
    if InQueue(q, clientId) {
      var i :| 0 <= i < |q| && q[i].clientId == clientId;
      assert ClientIds(q)[i] == clientId;
    }
  }

  lemma ClientIdsAppend(a: seq<Entry>, b: seq<Entry>)
    ensures ClientIds(a + b) == ClientIds(a) + ClientIds(b)
  {
    assert forall i | 0 <= i < |a + b| :: (a + b)[i] == if i < |a| then a[i] else b[i - |a|];
  }
}
