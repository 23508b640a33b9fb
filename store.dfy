/**
 * The document store as the engine sees it: the `calls` collection as a map
 * from call id to record, the two candidate sub-collections of each call as
 * append-only sequences, the snapshot listeners registered so far, and the
 * generator of fresh document ids.
 *
 * Deleting a call document does not delete its sub-collections (the store
 * does not cascade), so the candidate sequences live beside the records.
 */
module Store {
  import opened Common
  import opened Peer

  /** A document id of the `calls` collection. */
  type CallId = nat

  /** An anonymous user id (`auth.currentUser.uid`). */
  type Uid = string

  datatype Status = Waiting | Matched | Expired

  /** `webRTCState.callRole`: 'caller' creates the record, 'callee' answers it. */
  datatype Role = Caller | Callee

  /** The two candidate sub-collections of a call: `offerCandidates` and `answerCandidates`. */
  datatype Side = OfferSide | AnswerSide

  /** The side a role writes its own candidates to. */
  function SideOf(role: Role): Side {
    if role == Caller then OfferSide else AnswerSide
  }

  /** The side a role reads its peer's candidates from. */
  function PeerSide(role: Role): Side {
    if role == Caller then AnswerSide else OfferSide
  }

  /**
   * A session never listens to the side it writes, and each role listens to
   * exactly the side the other role writes.
   */
  lemma PeerSideIsOtherSide(role: Role)
    ensures PeerSide(role) != SideOf(role)
    ensures PeerSide(Caller) == SideOf(Callee) && PeerSide(Callee) == SideOf(Caller)
    ensures role == Caller ==> SideOf(role) == OfferSide && PeerSide(role) == AnswerSide
    ensures role == Callee ==> SideOf(role) == AnswerSide && PeerSide(role) == OfferSide
  {
  }

  /**
   * One document of `calls`. `created` is the creation time; the source
   * stores an ISO-8601 UTC string, whose string order is time order.
   */
  datatype CallRecord = CallRecord(
    offer: Option<Description>,
    answer: Option<Description>,
    status: Status,
    createdBy: Uid,
    answeredBy: Option<Uid>,
    created: int,
    matchedAt: Option<int>,
    expiredAt: Option<int>)

  datatype ChangeType = Added | Modified | Removed

  /** One entry of `snapshot.docChanges()` on a candidate sub-collection. */
  datatype DocChange = DocChange(kind: ChangeType, candidate: Candidate)

  /**
   * A registered `onSnapshot` listener: on a call document, or on one of its
   * candidate sub-collections (with the number of entries already delivered).
   */
  datatype Listener =
    | RecordListener(call: CallId)
    | CandidateListener(call: CallId, side: Side, seen: nat)

  datatype Db = Db(
    calls: map<CallId, CallRecord>,
    offerCandidates: map<CallId, seq<Candidate>>,
    answerCandidates: map<CallId, seq<Candidate>>,
    listeners: seq<Listener>,
    nextId: CallId)
  {
    /** Every id in use was handed out before `nextId`, so `nextId` is fresh. */
    predicate Valid() {
      && (forall id | id in calls :: id < nextId)
      && (forall id | id in offerCandidates :: id < nextId)
      && (forall id | id in answerCandidates :: id < nextId)
      && (forall i | 0 <= i < |listeners| :: listeners[i].call < nextId)
    }

    /** The entries of one candidate sub-collection, in append order. */
    function Candidates(id: CallId, side: Side): seq<Candidate> {
      var m := if side == OfferSide then offerCandidates else answerCandidates;
      if id in m then m[id] else []
    }
  }

  /** A fresh id has no record and empty sub-collections. */
  lemma FreshIdIsUnused(db: Db)
    requires db.Valid()
    ensures db.nextId !in db.calls
    ensures db.Candidates(db.nextId, OfferSide) == [] && db.Candidates(db.nextId, AnswerSide) == []
  {
  }

  /** `doc(collection(db, 'calls'))`: reserve a fresh id, writing nothing. */
  function ReserveId(db: Db): (r: Db)
    ensures r.nextId == db.nextId + 1
    ensures r.(nextId := db.nextId) == db
    ensures db.Valid() ==> r.Valid()
  {
    db.(nextId := db.nextId + 1)
  }

  /** `addDoc(collection(callDoc, side), c)`: append one entry; nothing else changes. */
  function AppendCandidate(db: Db, id: CallId, side: Side, c: Candidate): (r: Db)
    ensures r.calls == db.calls && r.listeners == db.listeners && r.nextId == db.nextId
    ensures forall i, s :: r.Candidates(i, s) ==
                           if i == id && s == side then db.Candidates(i, s) + [c] else db.Candidates(i, s)
    ensures db.Valid() && id < db.nextId ==> r.Valid()
  {
    if side == OfferSide
    then db.(offerCandidates := db.offerCandidates[id := db.Candidates(id, side) + [c]])
    else db.(answerCandidates := db.answerCandidates[id := db.Candidates(id, side) + [c]])
  }

  /** The record `createCall` writes: `{offer, status: 'waiting', createdBy, created}`. */
  function WaitingRecord(offer: Description, uid: Uid, created: int): (r: CallRecord)
    ensures r.status == Waiting && r.offer == Some(offer) && r.answer.None?
    ensures r.createdBy == uid && r.created == created && r.answeredBy.None?
    ensures r.matchedAt.None? && r.expiredAt.None?
  {
    CallRecord(Some(offer), None, Waiting, uid, None, created, None, None)
  }

  /** `setDoc(callDoc, record)` without merge: the document is replaced whole. */
  function SetDoc(db: Db, id: CallId, rec: CallRecord): (r: Db)
    ensures r.calls.Keys == db.calls.Keys + {id} && r.calls[id] == rec
    ensures forall i | i in db.calls && i != id :: r.calls[i] == db.calls[i]
    ensures r.(calls := db.calls) == db
    ensures db.Valid() && id < db.nextId ==> r.Valid()
  {
    db.(calls := db.calls[id := rec])
  }

  /**
   * `setDoc(callDoc, {answer}, {merge: true})` on an existing record: only
   * `answer` changes; offer, status, owner and timestamps are kept.
   */
  function MergeAnswer(db: Db, id: CallId, a: Description): (r: Db)
    requires id in db.calls
    ensures r.calls.Keys == db.calls.Keys
    ensures r.calls[id] == db.calls[id].(answer := Some(a))
    ensures forall i | i in db.calls && i != id :: r.calls[i] == db.calls[i]
    ensures r.(calls := db.calls) == db
    ensures db.Valid() ==> r.Valid()
  {
    db.(calls := db.calls[id := db.calls[id].(answer := Some(a))])
  }

  /**
   * `updateDoc(ref, {status: 'matched', answeredBy, matchedAt})`: a partial
   * update with no condition on the current status.
   */
  function Claim(db: Db, id: CallId, uid: Uid, at: int): (r: Db)
    requires id in db.calls
    ensures r.calls.Keys == db.calls.Keys
    ensures r.calls[id] ==
      db.calls[id].(status := Matched, answeredBy := Some(uid), matchedAt := Some(at))
    ensures forall i | i in db.calls && i != id :: r.calls[i] == db.calls[i]
    ensures r.(calls := db.calls) == db
    ensures db.Valid() ==> r.Valid()
  {
    db.(calls := db.calls[id := db.calls[id].(status := Matched, answeredBy := Some(uid),
                                              matchedAt := Some(at))])
  }

  /**
   * Two searchers that both saw the same open record both claim it: neither
   * write is refused, and the later one decides `answeredBy`.
   */
  lemma LaterClaimOverwrites(db: Db, id: CallId, first: Uid, second: Uid, t1: int, t2: int)
    requires id in db.calls
    ensures Claim(Claim(db, id, first, t1), id, second, t2).calls[id].answeredBy == Some(second)
    ensures Claim(Claim(db, id, first, t1), id, second, t2) == Claim(db, id, second, t2)
  {
    var a := Claim(Claim(db, id, first, t1), id, second, t2);
    var b := Claim(db, id, second, t2);
    assert a.calls == b.calls;
  }

  /**
   * `deleteDoc(callDoc)`: the record goes, its candidate sub-collections and
   * listeners stay; deleting an absent record changes nothing.
   */
  function DeleteDoc(db: Db, id: CallId): (r: Db)
    ensures r.calls.Keys == db.calls.Keys - {id}
    ensures forall i | i in r.calls :: r.calls[i] == db.calls[i]
    ensures r.(calls := db.calls) == db
    ensures id !in db.calls ==> r == db
    ensures db.Valid() ==> r.Valid()
  {
    db.(calls := db.calls - {id})
  }

  /** `onSnapshot(ref, ...)`: one more registered listener. */
  function Subscribe(db: Db, l: Listener): (r: Db)
    ensures r.listeners == db.listeners + [l]
    ensures r.(listeners := db.listeners) == db
    ensures db.Valid() && l.call < db.nextId ==> r.Valid()
  {
    db.(listeners := db.listeners + [l])
  }

  // ---------------------------------------------------------------------
  // The partner query of searchForPartner:
  //   where status == 'waiting', where createdBy != uid,
  //   orderBy createdBy, orderBy created, limit 1
  // ---------------------------------------------------------------------

  /** A record the query can return to `uid`. */
  function IsOpen(r: CallRecord, uid: Uid): (o: bool)
    ensures o ==> r.createdBy != uid
    ensures r.status == Matched || r.status == Expired ==> !o
  {
    r.status == Waiting && r.createdBy != uid
  }

  /** The ids of every record the query can return to `uid`. */
  function OpenIds(calls: map<CallId, CallRecord>, uid: Uid): (s: set<CallId>)
    ensures forall id :: id in s <==> id in calls && IsOpen(calls[id], uid)
  {
    set id | id in calls && IsOpen(calls[id], uid)
  }

  /** String order by code point, as the store sorts string fields. */
  predicate StrLess(a: string, b: string)
    decreases |a|
  {
    if |a| == 0 then |b| > 0
    else if |b| == 0 then false
    else if a[0] != b[0] then a[0] < b[0]
    else StrLess(a[1..], b[1..])
  }

  lemma {:induction false} StrLessIrreflexive(a: string)
    ensures !StrLess(a, a)
    decreases |a|
  {
    if |a| > 0 {
      StrLessIrreflexive(a[1..]);
    }
  }

  lemma {:induction false} StrLessTransitive(a: string, b: string, c: string)
    requires StrLess(a, b) && StrLess(b, c)
    ensures StrLess(a, c)
    decreases |a|
  {
    if |a| > 0 && a[0] == b[0] && b[0] == c[0] {
      StrLessTransitive(a[1..], b[1..], c[1..]);
    }
  }

  lemma {:induction false} StrLessTotal(a: string, b: string)
    requires a != b
    ensures StrLess(a, b) || StrLess(b, a)
    decreases |a|
  {
    if |a| > 0 && |b| > 0 && a[0] == b[0] {
      assert a == [a[0]] + a[1..] && b == [b[0]] + b[1..];
      StrLessTotal(a[1..], b[1..]);
    }
  }

  /**
   * Record `i` comes before record `j` in the query's order: by creator, then
   * by creation time, then by document id.
   */
  function Before(calls: map<CallId, CallRecord>, i: CallId, j: CallId): (b: bool)
    requires i in calls && j in calls
    ensures calls[i].createdBy != calls[j].createdBy ==> (b <==> StrLess(calls[i].createdBy, calls[j].createdBy))
    ensures calls[i].createdBy == calls[j].createdBy ==>
              (b <==> calls[i].created < calls[j].created || (calls[i].created == calls[j].created && i < j))
  {
    var a, b := calls[i], calls[j];
    StrLessIrreflexive(a.createdBy);
    || StrLess(a.createdBy, b.createdBy)
    || (a.createdBy == b.createdBy && a.created < b.created)
    || (a.createdBy == b.createdBy && a.created == b.created && i < j)
  }

  lemma BeforeIrreflexive(calls: map<CallId, CallRecord>, i: CallId)
    requires i in calls
    ensures !Before(calls, i, i)
  {
    StrLessIrreflexive(calls[i].createdBy);
  }

  lemma BeforeTransitive(calls: map<CallId, CallRecord>, i: CallId, j: CallId, k: CallId)
    requires i in calls && j in calls && k in calls
    requires Before(calls, i, j) && Before(calls, j, k)
    ensures Before(calls, i, k)
  {
    var a, b, c := calls[i].createdBy, calls[j].createdBy, calls[k].createdBy;
    if StrLess(a, b) && StrLess(b, c) {
      StrLessTransitive(a, b, c);
    }
  }

  lemma BeforeTotal(calls: map<CallId, CallRecord>, i: CallId, j: CallId)
    requires i in calls && j in calls && i != j
    ensures Before(calls, i, j) || Before(calls, j, i)
  {
    if calls[i].createdBy != calls[j].createdBy {
      StrLessTotal(calls[i].createdBy, calls[j].createdBy);
    }
  }

  lemma BeforeAsymmetric(calls: map<CallId, CallRecord>, i: CallId, j: CallId)
    requires i in calls && j in calls && Before(calls, i, j)
    ensures !Before(calls, j, i)
  {
    if Before(calls, j, i) {
      BeforeTransitive(calls, i, j, i);
      BeforeIrreflexive(calls, i);
    }
  }

  /** `id` is the single result of `uid`'s partner query. */
  function IsFirstOpen(calls: map<CallId, CallRecord>, uid: Uid, id: CallId): (f: bool)
    ensures f ==> id in calls && IsOpen(calls[id], uid)
    ensures f ==> forall o | o in OpenIds(calls, uid) && o != id :: !Before(calls, o, id)
  {
    var f := && id in OpenIds(calls, uid)
             && forall o | o in OpenIds(calls, uid) && o != id :: Before(calls, id, o);
    if f then FirstIsUnpreceded(calls, OpenIds(calls, uid), id); f else f
  }

  /** Nothing in a set comes before its first element. */
  lemma FirstIsUnpreceded(calls: map<CallId, CallRecord>, s: set<CallId>, m: CallId)
    requires m in s && s <= calls.Keys
    requires forall o | o in s && o != m :: Before(calls, m, o)
    ensures forall o | o in s && o != m :: !Before(calls, o, m)
  {
    forall o | o in s && o != m
      ensures !Before(calls, o, m)
    {
      BeforeAsymmetric(calls, m, o);
    }
  }

  /** A non-empty set of records has a first one in the query's order. */
  lemma {:induction false} FirstOfExists(calls: map<CallId, CallRecord>, s: set<CallId>)
    requires s != {} && s <= calls.Keys
    ensures exists m :: m in s && forall o | o in s && o != m :: Before(calls, m, o)
    decreases |s|
  {
    var x :| x in s;
    var rest := s - {x};
    if rest == {} {
      assert s == {x};
    } else {
      FirstOfExists(calls, rest);
      var m :| m in rest && forall o | o in rest && o != m :: Before(calls, m, o);
      BeforeTotal(calls, x, m);
      if Before(calls, x, m) {
        forall o | o in s && o != x
          ensures Before(calls, x, o)
        {
          if o != m {
            BeforeTransitive(calls, x, m, o);
          }
        }
      } else {
        assert forall o | o in s && o != m :: Before(calls, m, o);
      }
    }
  }

  /** The query returns a record exactly when an open record exists. */
  lemma FirstOpenExists(calls: map<CallId, CallRecord>, uid: Uid)
    requires OpenIds(calls, uid) != {}
    ensures exists id :: IsFirstOpen(calls, uid, id)
  {
    FirstOfExists(calls, OpenIds(calls, uid));
    var m :| m in OpenIds(calls, uid) && forall o | o in OpenIds(calls, uid) && o != m :: Before(calls, m, o);
    assert IsFirstOpen(calls, uid, m);
  }

  /** `limit(1)`: the query's result is unique. */
  lemma FirstOpenUnique(calls: map<CallId, CallRecord>, uid: Uid, a: CallId, b: CallId)
    requires IsFirstOpen(calls, uid, a) && IsFirstOpen(calls, uid, b)
    ensures a == b
  {
    if a != b {
      BeforeAsymmetric(calls, a, b);
    }
  }
}
