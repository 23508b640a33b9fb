/**
 * The scheduled `cleanupOldCalls` function: once a day it marks every call
 * record that is older than one day and still waiting or matched as expired,
 * in one batch. Records are never deleted here.
 */
module Expiry {
  import opened Common
  import opened Store

  /** One day in milliseconds: `setDate(getDate() - 1)` on a day without a clock change. */
  const OneDay: int := 86_400_000

  /** The query: `created < oneDayAgo` and `status in ['waiting', 'matched']`. */
  predicate Stale(r: CallRecord, now: int) {
    r.created < now - OneDay && (r.status == Waiting || r.status == Matched)
  }

  /** The documents of the query snapshot. */
  function StaleIds(calls: map<CallId, CallRecord>, now: int): (s: set<CallId>)
    ensures forall id :: id in s <==> id in calls && Stale(calls[id], now)
  {
    set id | id in calls && Stale(calls[id], now)
  }

  /** The partial update `{status: 'expired', expiredAt}` of one record. */
  function Expire(r: CallRecord, stamp: int): (e: CallRecord)
    ensures e.status == Expired && e.expiredAt == Some(stamp)
    ensures e.(status := r.status, expiredAt := r.expiredAt) == r
  {
    r.(status := Expired, expiredAt := Some(stamp))
  }

  /** The collection after the batch commits. */
  function ExpireStale(calls: map<CallId, CallRecord>, now: int, stamp: int): (r: map<CallId, CallRecord>)
    ensures r.Keys == calls.Keys
    ensures forall id | id in calls && Stale(calls[id], now) :: r[id] == Expire(calls[id], stamp)
    ensures forall id | id in calls && !Stale(calls[id], now) :: r[id] == calls[id]
  {
    map id | id in calls :: if Stale(calls[id], now) then Expire(calls[id], stamp) else calls[id]
  }

  /**
   * `cleanupOldCalls` at time `now`, with `stamp` the server timestamp the
   * batch writes. Returns the store after the commit and the snapshot size
   * the function logs. Nothing but the records' status and expiry stamp
   * changes.
   */
  method CleanupOldCalls(db: Db, now: int, stamp: int) returns (db': Db, count: nat)
    ensures db' == db.(calls := ExpireStale(db.calls, now, stamp))
    ensures count == |StaleIds(db.calls, now)|
    ensures db.Valid() ==> db'.Valid()
  {
    var snapshot := StaleIds(db.calls, now);
    var batch := db.calls;
    var pending := snapshot;
    count := 0;
    while pending != {}
      invariant pending <= snapshot
      invariant count == |snapshot| - |pending|
      invariant batch.Keys == db.calls.Keys
      invariant forall id | id in db.calls ::
                  batch[id] == if id in snapshot && id !in pending then Expire(db.calls[id], stamp) else db.calls[id]
      decreases |pending|
    {
      var id :| id in pending;
      batch := batch[id := Expire(db.calls[id], stamp)];
      pending := pending - {id};
      count := count + 1;
    }
    assert batch == ExpireStale(db.calls, now, stamp);
    db' := db.(calls := batch);
  }

  /**
   * A second run at the same time selects nothing and changes nothing:
   * expired records fail the status filter.
   */
  lemma ExpiryIdempotent(calls: map<CallId, CallRecord>, now: int, stamp: int, stamp2: int)
    ensures StaleIds(ExpireStale(calls, now, stamp), now) == {}
    ensures ExpireStale(ExpireStale(calls, now, stamp), now, stamp2) == ExpireStale(calls, now, stamp)
  {
    var once := ExpireStale(calls, now, stamp);
    forall id | id in once
      ensures !Stale(once[id], now)
    {
      assert Stale(calls[id], now) || once[id] == calls[id];
    }
    assert StaleIds(once, now) == {};
  }

  /** An expired record is never offered to a searching user again. */
  lemma ExpiredNotOpen(calls: map<CallId, CallRecord>, now: int, stamp: int, uid: Uid)
    ensures forall id | id in StaleIds(calls, now) :: id !in OpenIds(ExpireStale(calls, now, stamp), uid)
    ensures OpenIds(ExpireStale(calls, now, stamp), uid) == OpenIds(calls, uid) - StaleIds(calls, now)
  {
    var after := ExpireStale(calls, now, stamp);
    forall id
      ensures id in OpenIds(after, uid) <==> id in OpenIds(calls, uid) && id !in StaleIds(calls, now)
    {
      if id in calls && !Stale(calls[id], now) {
        assert after[id] == calls[id];
      }
    }
  }
}
