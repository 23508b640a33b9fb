/**
 * The call engine: the process-wide session state object and the operations
 * that drive one call through the store and the peer connection.
 *
 * Every operation is one atomic step. The results of foreign calls are
 * parameters: the stream `getUserMedia` resolves to (null when it rejects),
 * the descriptions `createOffer`/`createAnswer` resolve to, whether a
 * `deleteDoc` succeeds, the user id, and the clock. A thrown exception is an
 * `Err` result, raised at the step where the source throws it.
 */
module Engine {
  import opened Common
  import opened Media
  import opened Peer
  import opened Store

  /** What an engine operation can throw. */
  datatype Failure =
    | MediaAccessError   // getUserMedia rejected
    | NoPeerConnection   // `webRTCState.pc` was still null (a TypeError in the source)
    | InvalidCallData    // 'Invalid call data: no offer found'
    | StoreWriteFailed   // a store write that is not wrapped in its own try block failed

  /** The renderer that registered itself in `onStreamUpdate`. */
  datatype StreamListener = StreamListener(owner: string)

  /** The candidates of the `added` changes, in snapshot order. */
  function AddedCandidates(changes: seq<DocChange>): (r: seq<Candidate>)
    ensures |r| <= |changes|
    ensures (forall i | 0 <= i < |changes| :: changes[i].kind == Added) ==> |r| == |changes|
    decreases |changes|
  {
    if changes == [] then []
    else
      var last := changes[|changes| - 1];
      AddedCandidates(changes[..|changes| - 1]) + (if last.kind == Added then [last.candidate] else [])
  }

  /**
   * A candidate snapshot's `docChanges().forEach(...)`: each `added` change
   * is passed to `addIceCandidate`; other kinds are skipped. With no peer
   * connection each call throws inside its try block and nothing changes.
   */
  function ApplyChanges(pc: Option<PeerConn>, changes: seq<DocChange>): (r: Option<PeerConn>)
    ensures pc.Some? && !pc.value.closed && pc.value.remoteDescription.Some? ==>
              r == Some(pc.value.(remoteCandidates := pc.value.remoteCandidates + AddedCandidates(changes)))
    ensures pc.None? || pc.value.closed || pc.value.remoteDescription.None? ==> r == pc
    decreases |changes|
  {
    if changes == [] then
      assert pc.Some? ==> pc.value.(remoteCandidates := pc.value.remoteCandidates + []) == pc.value;
      pc
    else
      var last := changes[|changes| - 1];
      var before := ApplyChanges(pc, changes[..|changes| - 1]);
      assert AddedCandidates(changes) ==
        AddedCandidates(changes[..|changes| - 1]) + (if last.kind == Added then [last.candidate] else []);
      if last.kind == Added && before.Some? then
        assert pc.Some? && !pc.value.closed && pc.value.remoteDescription.Some? ==>
          pc.value.remoteCandidates + AddedCandidates(changes) ==
          pc.value.remoteCandidates + AddedCandidates(changes[..|changes| - 1]) + [last.candidate];
        Some(AddIceCandidate(before.value, last.candidate))
      else
        assert last.kind != Added ==> AddedCandidates(changes) == AddedCandidates(changes[..|changes| - 1]);
        before
  }

  /** The changes a candidate listener receives: every entry after the first `seen`, as `added`. */
  function NewEntries(entries: seq<Candidate>, seen: nat): (r: seq<DocChange>)
    ensures AddedCandidates(r) == if seen <= |entries| then entries[seen..] else []
  {
    var from := if seen <= |entries| then seen else |entries|;
    var r := seq(|entries| - from, i requires 0 <= i < |entries| - from => DocChange(Added, entries[from + i]));
    AddedOfAllAdded(r);
    assert AddedCandidates(r) == entries[from..];
    r
  }

  /** When every change is an addition, the applied candidates are the changes' candidates. */
  lemma {:induction false} AddedOfAllAdded(changes: seq<DocChange>)
    requires forall i | 0 <= i < |changes| :: changes[i].kind == Added
    ensures AddedCandidates(changes) == seq(|changes|, i requires 0 <= i < |changes| => changes[i].candidate)
    decreases |changes|
  {
    if changes != [] {
      AddedOfAllAdded(changes[..|changes| - 1]);
    }
  }

  /** The candidates of two change lists are those of their concatenation. */
  lemma {:induction false} AddedCandidatesAppend(a: seq<DocChange>, b: seq<DocChange>)
    ensures AddedCandidates(a + b) == AddedCandidates(a) + AddedCandidates(b)
    decreases |b|
  {
    if b == [] {
      assert a + b == a;
    } else {
      assert (a + b)[..|a + b| - 1] == a + b[..|b| - 1];
      AddedCandidatesAppend(a, b[..|b| - 1]);
    }
  }

  /**
   * A listener that receives its sub-collection in two deliveries applies
   * each entry once and in append order: the same as one delivery of
   * everything. With nothing new, the second delivery changes nothing.
   */
  lemma DeliveriesApplyEachEntryOnce(pc: Option<PeerConn>, entries: seq<Candidate>, more: seq<Candidate>, seen: nat)
    requires seen <= |entries|
    ensures ApplyChanges(ApplyChanges(pc, NewEntries(entries, seen)), NewEntries(entries + more, |entries|))
         == ApplyChanges(pc, NewEntries(entries + more, seen))
  {
    var all := entries + more;
    assert all[|entries|..] == more;
    assert all[seen..] == entries[seen..] + more;
    if pc.Some? && !pc.value.closed && pc.value.remoteDescription.Some? {
      var p := pc.value;
      var once := ApplyChanges(pc, NewEntries(entries, seen));
      assert once == Some(p.(remoteCandidates := p.remoteCandidates + entries[seen..]));
      assert ApplyChanges(once, NewEntries(all, |entries|))
          == Some(p.(remoteCandidates := p.remoteCandidates + entries[seen..] + more));
      assert p.remoteCandidates + entries[seen..] + more == p.remoteCandidates + all[seen..];
    }
  }

  /**
   * Candidates delivered before the answer is applied are dropped, and the
   * listener never delivers them again: once the answer arrives, the next
   * snapshot brings nothing, so those candidates are never applied.
   */
  lemma {:induction false} EarlyCandidatesAreLost(p: PeerConn, entries: seq<Candidate>, answer: Description)
    requires !p.closed && p.remoteDescription.None?
    ensures var early := ApplyChanges(Some(p), NewEntries(entries, 0));
            var answered := ApplyAnswer(early, Some(answer));
            && ApplyChanges(answered, NewEntries(entries, |entries|)) == answered
            && answered.value.remoteDescription == Some(answer)
            && answered.value.remoteCandidates == p.remoteCandidates
  {
    assert entries[|entries|..] == [];
  }

  /** The peer connection after the local tracks are attached, when they had to be acquired. */
  function WithMedia(p: PeerConn, hadLocal: bool, media: MediaStream?): (r: PeerConn)
    reads media
    ensures r.(senders := p.senders) == p && p.senders <= r.senders
    ensures !hadLocal && media != null ==> r.senders[|p.senders|..] == media.tracks
    ensures hadLocal || media == null ==> r == p
  {
    if hadLocal || media == null then p else AddSenders(p, media.tracks)
  }

  /** `remoteStream.addTrack(track)` for every track, in order. */
  method AddAllTracks(s: MediaStream, ts: seq<Track>)
    modifies s
    ensures s.tracks == WithTracks(old(s.tracks), ts)
  {
    ghost var base := s.tracks;
    for i := 0 to |ts|
      invariant s.tracks == WithTracks(base, ts[..i])
    {
      assert ts[..i + 1][..i] == ts[..i];
      s.AddTrack(ts[i]);
    }
    assert ts[..|ts|] == ts;
  }

  /** `webRTCState`: the one session of this browser tab. */
  class WebRTCState {
    var pc: Option<PeerConn>
    var localStream: MediaStream?
    var remoteStream: MediaStream?
    var onStreamUpdate: Option<StreamListener>
    var callRole: Option<Role>
    var currentCallDoc: Option<CallId>

    /** The module-load value: every field null. */
    constructor ()
      ensures Cleared() && onStreamUpdate.None?
    {
      pc, localStream, remoteStream := None, null, null;
      onStreamUpdate, callRole, currentCallDoc := None, None, None;
    }

    /**
     * Every operation keeps these: a current call document always comes with
     * a role, and the session never holds a closed connection.
     */
    ghost predicate Valid()
      reads this
    {
      && (currentCallDoc.Some? ==> callRole.Some?)
      && (pc.Some? ==> !pc.value.closed)
    }

    /** The state `cleanup` leaves: everything but `onStreamUpdate` is null. */
    predicate Cleared()
      reads this
    {
      pc.None? && localStream == null && remoteStream == null && callRole.None? && currentCallDoc.None?
    }

    /** The local and remote tracks `cleanup` stops. */
    function SessionTracks(): set<Track>
      reads this, localStream, remoteStream
    {
      set t | t in TracksOf(localStream) + TracksOf(remoteStream)
    }

    /** `initializePeerConnection` once its ICE configuration has arrived. */
    method InitializePeerConnection()
      modifies this
      ensures pc == Some(NewPeerConnection())
      ensures localStream == old(localStream) && remoteStream == old(remoteStream)
      ensures onStreamUpdate == old(onStreamUpdate)
      ensures callRole == old(callRole) && currentCallDoc == old(currentCallDoc)
    {
      pc := Some(NewPeerConnection());
    }

    /**
     * `setupMediaSources`, given what `getUserMedia` resolved to: the stream
     * becomes the local stream, then each of its tracks is added to the peer
     * connection, which throws when there is none yet.
     */
    method SetupMediaSources(media: MediaStream?) returns (r: Result<MediaStream, Failure>)
      requires Valid()
      modifies this
      ensures Valid()
      ensures media == null ==> r == Err(MediaAccessError) && localStream == old(localStream) && pc == old(pc)
      ensures media != null ==> localStream == media
      ensures media != null && old(pc).None? ==> r == Err(NoPeerConnection) && pc.None?
      ensures media != null && old(pc).Some? ==> r == Ok(media) && pc == Some(AddSenders(old(pc).value, media.tracks))
      ensures remoteStream == old(remoteStream) && onStreamUpdate == old(onStreamUpdate)
      ensures callRole == old(callRole) && currentCallDoc == old(currentCallDoc)
    {
      if media == null {
        return Err(MediaAccessError);
      }
      localStream := media;
      if pc.None? {
        return Err(NoPeerConnection);
      }
      var p := pc.value;
      var ts := media.tracks;
      for i := 0 to |ts|
        invariant p == AddSenders(pc.value, ts[..i])
      {
        assert ts[..i + 1] == ts[..i] + [ts[i]];
        p := p.(senders := p.senders + [ts[i]]);
      }
      assert ts[..|ts|] == ts;
      pc := Some(p);
      r := Ok(media);
    }

    /**
     * `handleIceCandidate`: a local candidate goes to the sub-collection of
     * the local role, and only while there is a current call document. A null
     * candidate, no document or no role writes nothing and raises nothing.
     */
    method HandleIceCandidate(candidate: Option<Candidate>, db: Db) returns (db': Db)
      ensures db'.calls == db.calls && db'.listeners == db.listeners && db'.nextId == db.nextId
      ensures forall id: CallId, side: Side :: db'.Candidates(id, side) ==
                if candidate.Some? && currentCallDoc == Some(id) && callRole.Some? && side == SideOf(callRole.value)
                then db.Candidates(id, side) + [candidate.value]
                else db.Candidates(id, side)
      ensures callRole.Some? ==>
                forall id: CallId :: db'.Candidates(id, PeerSide(callRole.value)) == db.Candidates(id, PeerSide(callRole.value))
      ensures db.Valid() && (currentCallDoc.Some? ==> currentCallDoc.value < db.nextId) ==> db'.Valid()
    {
      if candidate.None? || currentCallDoc.None? || callRole.None? {
        return db;
      }
      PeerSideIsOtherSide(callRole.value);
      db' := AppendCandidate(db, currentCallDoc.value, SideOf(callRole.value), candidate.value);
    }

    /**
     * `pc.ontrack`: the remote stream is created only when there is none;
     * the event's tracks are added to it, so earlier tracks stay; then the
     * registered renderer, if any, is called with that same stream (returned
     * here as `notified`). An event without streams throws after the stream
     * exists and before any track is added.
     */
    method OnTrack(streams: seq<MediaStream>) returns (notified: MediaStream?)
      modifies this, remoteStream
      ensures remoteStream != null
      ensures old(remoteStream) != null ==> remoteStream == old(remoteStream)
      ensures old(remoteStream) == null ==> fresh(remoteStream)
      ensures |streams| == 0 ==> remoteStream.tracks == old(TracksOf(remoteStream)) && notified == null
      ensures |streams| > 0 ==> remoteStream.tracks == WithTracks(old(TracksOf(remoteStream)), old(streams[0].tracks))
      ensures |streams| > 0 ==> notified == if onStreamUpdate.Some? then remoteStream else null
      ensures pc == old(pc) && localStream == old(localStream) && onStreamUpdate == old(onStreamUpdate)
      ensures callRole == old(callRole) && currentCallDoc == old(currentCallDoc)
    {
      if remoteStream == null {
        remoteStream := new MediaStream();
      }
      if |streams| == 0 {
        return null;
      }
      var rs := remoteStream;
      AddAllTracks(rs, streams[0].tracks);
      notified := if onStreamUpdate.Some? then rs else null;
    }

    /**
     * `pc.onconnectionstatechange` firing for the session's connection: a
     * disconnected, failed or closed state runs `cleanup`; any other state
     * only updates the connection.
     */
    method OnConnectionStateChange(state: ConnState, deleteOk: bool, db: Db) returns (db': Db)
      requires Valid() && pc.Some?
      modifies this, SessionTracks()
      ensures Valid()
      ensures old(pc).value.hasConnectionHandler && Ends(state) ==>
                Cleared() && db' == (if old(currentCallDoc).Some? && deleteOk then DeleteDoc(db, old(currentCallDoc).value) else db)
      ensures old(pc).value.hasConnectionHandler && Ends(state) ==>
                forall t | t in old(TracksOf(localStream)) + old(TracksOf(remoteStream)) :: t.readyState == Ended
      ensures !(old(pc).value.hasConnectionHandler && Ends(state)) ==>
                pc == Some(old(pc).value.(connectionState := state)) && db' == db
                && localStream == old(localStream) && remoteStream == old(remoteStream)
                && callRole == old(callRole) && currentCallDoc == old(currentCallDoc)
      ensures !(old(pc).value.hasConnectionHandler && Ends(state)) ==>
                forall t | t in old(SessionTracks()) :: t.readyState == old(t.readyState)
      ensures onStreamUpdate == old(onStreamUpdate)
    {
      var p := pc.value.(connectionState := state);
      pc := Some(p);
      if p.hasConnectionHandler && Ends(state) {
        var ok, closed;
        ok, closed, db' := Cleanup(deleteOk, db);
      } else {
        db' := db;
      }
    }

    /**
     * `pc.oniceconnectionstatechange`: `failed` asks for an ICE restart;
     * `disconnected` waits for recovery; no state tears the call down.
     */
    method OnIceConnectionStateChange(state: IceState)
      requires Valid() && pc.Some?
      modifies this
      ensures Valid()
      ensures pc == Some(old(pc).value.(iceConnectionState := state,
                                        iceRestarts := old(pc).value.iceRestarts + if state == IceFailed then 1 else 0))
      ensures localStream == old(localStream) && remoteStream == old(remoteStream)
      ensures onStreamUpdate == old(onStreamUpdate)
      ensures callRole == old(callRole) && currentCallDoc == old(currentCallDoc)
    {
      var p := pc.value.(iceConnectionState := state);
      if state == IceFailed {
        p := p.(iceRestarts := p.iceRestarts + 1);
      }
      pc := Some(p);
    }

    /**
     * The answer listener of `createCall`, given the record snapshot (absent
     * once the record is deleted).
     */
    method OnRecordSnapshot(data: Option<CallRecord>)
      requires Valid()
      modifies this
      ensures Valid()
      ensures pc == ApplyAnswer(old(pc), if data.Some? then data.value.answer else None)
      ensures localStream == old(localStream) && remoteStream == old(remoteStream)
      ensures onStreamUpdate == old(onStreamUpdate)
      ensures callRole == old(callRole) && currentCallDoc == old(currentCallDoc)
    {
      if data.Some? {
        pc := ApplyAnswer(pc, data.value.answer);
      }
    }

    /** A candidate listener's callback: the `forEach` over `snapshot.docChanges()`. */
    method OnCandidateSnapshot(changes: seq<DocChange>)
      requires Valid()
      modifies this
      ensures Valid()
      ensures pc == ApplyChanges(old(pc), changes)
      ensures localStream == old(localStream) && remoteStream == old(remoteStream)
      ensures onStreamUpdate == old(onStreamUpdate)
      ensures callRole == old(callRole) && currentCallDoc == old(currentCallDoc)
    {
      var p := pc;
      for i := 0 to |changes|
        invariant p == ApplyChanges(pc, changes[..i])
      {
        assert changes[..i + 1][..i] == changes[..i];
        if changes[i].kind == Added && p.Some? {
          p := Some(AddIceCandidate(p.value, changes[i].candidate));
        }
      }
      assert changes[..|changes|] == changes;
      pc := p;
    }

    /** The store delivers the current record to the `k`-th listener, a record listener. */
    method DeliverRecordSnapshot(k: nat, db: Db)
      requires Valid() && k < |db.listeners| && db.listeners[k].RecordListener?
      modifies this
      ensures Valid()
      ensures var id := db.listeners[k].call;
              pc == ApplyAnswer(old(pc), if id in db.calls then db.calls[id].answer else None)
      ensures localStream == old(localStream) && remoteStream == old(remoteStream)
      ensures onStreamUpdate == old(onStreamUpdate)
      ensures callRole == old(callRole) && currentCallDoc == old(currentCallDoc)
    {
      var id := db.listeners[k].call;
      OnRecordSnapshot(if id in db.calls then Some(db.calls[id]) else None);
    }

    /**
     * The store delivers to the `k`-th listener, a candidate listener, the
     * entries appended to its sub-collection since its last delivery. They are
     * applied in append order, and the listener then counts them as seen, so
     * no entry is delivered twice.
     */
    method DeliverCandidateSnapshot(k: nat, db: Db) returns (db': Db)
      requires Valid() && k < |db.listeners| && db.listeners[k].CandidateListener?
      modifies this
      ensures Valid()
      ensures var l := db.listeners[k];
              var entries := db.Candidates(l.call, l.side);
              && db' == db.(listeners := db.listeners[k := l.(seen := |entries|)])
              && pc == ApplyChanges(old(pc), NewEntries(entries, l.seen))
              && (old(pc).Some? && !old(pc).value.closed && old(pc).value.remoteDescription.Some? ==>
                    pc.value.remoteCandidates ==
                      old(pc).value.remoteCandidates + if l.seen <= |entries| then entries[l.seen..] else [])
      ensures db.Valid() ==> db'.Valid()
      ensures localStream == old(localStream) && remoteStream == old(remoteStream)
      ensures onStreamUpdate == old(onStreamUpdate)
      ensures callRole == old(callRole) && currentCallDoc == old(currentCallDoc)
    {
      var l := db.listeners[k];
      var entries := db.Candidates(l.call, l.side);
      OnCandidateSnapshot(NewEntries(entries, l.seen));
      db' := db.(listeners := db.listeners[k := l.(seen := |entries|)]);
    }

    /**
     * `createCall`: become the caller, acquire local media if there is none,
     * take a fresh call document, set the offer as local description, write
     * `{offer, status: 'waiting', createdBy, created}` over the document, and
     * listen to the record and to the answer-side candidates.
     */
    method CreateCall(uid: Uid, now: int, media: MediaStream?, offer: Description, db: Db)
      returns (r: Result<CallId, Failure>, db': Db)
      requires Valid() && db.Valid()
      modifies this
      ensures Valid() && db'.Valid()
      ensures callRole == Some(Caller)
      ensures remoteStream == old(remoteStream) && onStreamUpdate == old(onStreamUpdate)
      ensures localStream == if old(localStream) != null then old(localStream) else media
      ensures old(localStream) == null && media == null ==>
                r == Err(MediaAccessError) && pc == old(pc) && currentCallDoc == old(currentCallDoc) && db' == db
      ensures old(localStream) == null && media != null && old(pc).None? ==>
                r == Err(NoPeerConnection) && pc.None? && currentCallDoc == old(currentCallDoc) && db' == db
      ensures old(localStream) != null && old(pc).None? ==>
                r == Err(NoPeerConnection) && pc.None? && currentCallDoc == Some(db.nextId) && db' == ReserveId(db)
      ensures r.Ok? ==> r.value !in db.calls && db.Candidates(r.value, PeerSide(Caller)) == []
      ensures localStream != null && old(pc).Some? ==>
                var id := db.nextId;
                && r == Ok(id)
                && currentCallDoc == Some(id)
                && pc == Some(WithMedia(old(pc).value, old(localStream) != null, media).(localDescription := Some(offer)))
                && db' == Subscribe(Subscribe(SetDoc(ReserveId(db), id, WaitingRecord(offer, uid, now)),
                                              RecordListener(id)),
                                    CandidateListener(id, PeerSide(Caller), 0))
    {
      callRole := Some(Caller);
      if localStream == null {
        var m := SetupMediaSources(media);
        if m.Err? {
          return Err(m.error), db;
        }
      }
      var id := db.nextId;
      FreshIdIsUnused(db);
      db' := ReserveId(db);
      currentCallDoc := Some(id);
      if pc.None? {
        return Err(NoPeerConnection), db';
      }
      pc := Some(pc.value.(localDescription := Some(offer)));
      db' := SetDoc(db', id, WaitingRecord(offer, uid, now));
      db' := Subscribe(db', RecordListener(id));
      db' := Subscribe(db', CandidateListener(id, PeerSide(Caller), 0));
      r := Ok(id);
    }

    /**
     * `answerCall(callId)`: become the callee, acquire local media if there
     * is none, make `callId` the current document, read the record and throw
     * if it or its offer is missing (before any description is applied), set
     * the offer as remote and the answer as local description, merge the
     * answer into the record, and listen to the offer-side candidates.
     */
    method AnswerCall(callId: CallId, media: MediaStream?, answer: Description, db: Db)
      returns (r: Result<CallId, Failure>, db': Db)
      requires Valid() && db.Valid()
      modifies this
      ensures Valid() && db'.Valid()
      ensures callRole == Some(Callee)
      ensures remoteStream == old(remoteStream) && onStreamUpdate == old(onStreamUpdate)
      ensures localStream == if old(localStream) != null then old(localStream) else media
      ensures old(localStream) == null && media == null ==>
                r == Err(MediaAccessError) && pc == old(pc) && currentCallDoc == old(currentCallDoc) && db' == db
      ensures old(localStream) == null && media != null && old(pc).None? ==>
                r == Err(NoPeerConnection) && pc.None? && currentCallDoc == old(currentCallDoc) && db' == db
      ensures old(localStream) != null || (media != null && old(pc).Some?) ==> currentCallDoc == Some(callId)
      ensures (old(localStream) != null || (media != null && old(pc).Some?))
              && (callId !in db.calls || db.calls[callId].offer.None?) ==>
                r == Err(InvalidCallData) && db' == db
                && pc == (if old(pc).Some? then Some(WithMedia(old(pc).value, old(localStream) != null, media)) else None)
      ensures old(localStream) != null && old(pc).None? && callId in db.calls && db.calls[callId].offer.Some? ==>
                r == Err(NoPeerConnection) && pc.None? && db' == db
      ensures localStream != null && old(pc).Some? && callId in db.calls && db.calls[callId].offer.Some? ==>
                && r == Ok(callId)
                && pc == Some(WithMedia(old(pc).value, old(localStream) != null, media)
                                .(remoteDescription := db.calls[callId].offer, localDescription := Some(answer)))
                && db' == Subscribe(MergeAnswer(db, callId, answer), CandidateListener(callId, PeerSide(Callee), 0))
    {
      callRole := Some(Callee);
      if localStream == null {
        var m := SetupMediaSources(media);
        if m.Err? {
          return Err(m.error), db;
        }
      }
      currentCallDoc := Some(callId);
      if callId !in db.calls || db.calls[callId].offer.None? {
        return Err(InvalidCallData), db;
      }
      if pc.None? {
        return Err(NoPeerConnection), db;
      }
      pc := Some(pc.value.(remoteDescription := db.calls[callId].offer, localDescription := Some(answer)));
      db' := MergeAnswer(db, callId, answer);
      db' := Subscribe(db', CandidateListener(callId, PeerSide(Callee), 0));
      r := Ok(callId);
    }

    /**
     * `cleanup`: delete the current record (a failed delete is logged and the
     * rest goes on), detach the connection-state handler and close the
     * connection, stop every local and remote track, and null every field
     * except `onStreamUpdate`. It always reports success. `closedPc` is the
     * connection object as closing left it.
     */
    method Cleanup(deleteOk: bool, db: Db) returns (ok: bool, closedPc: Option<PeerConn>, db': Db)
      modifies this, SessionTracks()
      ensures ok
      ensures Valid() && Cleared() && onStreamUpdate == old(onStreamUpdate)
      ensures db' == if old(currentCallDoc).Some? && deleteOk then DeleteDoc(db, old(currentCallDoc).value) else db
      ensures closedPc == if old(pc).Some? then Some(Close(old(pc).value)) else None
      ensures forall t | t in old(TracksOf(localStream)) + old(TracksOf(remoteStream)) :: t.readyState == Ended
      ensures old(Cleared()) ==> db' == db && closedPc.None?
      ensures db.Valid() ==> db'.Valid()
    {
      db' := db;
      if currentCallDoc.Some? && deleteOk {
        db' := DeleteDoc(db, currentCallDoc.value);
      }
      closedPc := None;
      if pc.Some? {
        closedPc := Some(Close(pc.value));
      }
      var local, remote := TracksOf(localStream), TracksOf(remoteStream);
      StopAll(local);
      StopAll(remote);
      pc := None;
      localStream := null;
      remoteStream := null;
      callRole := None;
      currentCallDoc := None;
      ok := true;
    }

    /**
     * `searchForPartner`: query for the first waiting record of someone
     * else. Found: claim it with an unconditional update and answer it as
     * callee. Not found: create a new waiting record as caller.
     */
    method SearchForPartner(uid: Uid, now: int, media: MediaStream?, offer: Description,
                            answer: Description, db: Db)
      returns (r: Result<CallId, Failure>, db': Db)
      requires Valid() && db.Valid()
      modifies this
      ensures Valid() && db'.Valid()
      ensures remoteStream == old(remoteStream) && onStreamUpdate == old(onStreamUpdate)
      ensures localStream == if old(localStream) != null then old(localStream) else media
      ensures OpenIds(db.calls, uid) == {} ==>
                && callRole == Some(Caller)
                && (r.Ok? <==> old(pc).Some? && (old(localStream) != null || media != null))
                && (r.Ok? ==>
                      && r.value == db.nextId && currentCallDoc == Some(r.value)
                      && db'.calls.Keys == db.calls.Keys + {r.value}
                      && db'.calls[r.value] == WaitingRecord(offer, uid, now)
                      && (forall i | i in db.calls :: db'.calls[i] == db.calls[i])
                      && db'.listeners == db.listeners + [RecordListener(r.value), CandidateListener(r.value, PeerSide(Caller), 0)]
                      && pc.Some? && pc.value.localDescription == Some(offer)
                      && pc.value.remoteDescription == old(pc).value.remoteDescription)
                && (r.Ok? ==>
                      && db' == Subscribe(Subscribe(SetDoc(ReserveId(db), r.value, WaitingRecord(offer, uid, now)),
                                                    RecordListener(r.value)),
                                          CandidateListener(r.value, PeerSide(Caller), 0))
                      && pc == Some(WithMedia(old(pc).value, old(localStream) != null, media).(localDescription := Some(offer))))
                && (r.Err? ==>
                      && db' == (if old(localStream) != null then ReserveId(db) else db)
                      && pc == old(pc)
                      && currentCallDoc == (if old(localStream) != null then Some(db.nextId) else old(currentCallDoc)))
      ensures OpenIds(db.calls, uid) != {} ==>
                && callRole == Some(Callee)
                && exists id ::
                     && IsFirstOpen(db.calls, uid, id)
                     && db'.calls.Keys == db.calls.Keys
                     && db'.calls[id].(answer := db.calls[id].answer) ==
                          db.calls[id].(status := Matched, answeredBy := Some(uid), matchedAt := Some(now))
                     && (forall i | i in db.calls && i != id :: db'.calls[i] == db.calls[i])
                     && (r.Ok? <==> old(pc).Some? && (old(localStream) != null || media != null)
                                    && db.calls[id].offer.Some?)
                     && (r.Ok? ==>
                           && r == Ok(id) && currentCallDoc == Some(id) && db'.calls[id].answer == Some(answer)
                           && db'.listeners == db.listeners + [CandidateListener(id, PeerSide(Callee), 0)]
                           && pc.Some? && pc.value.remoteDescription == db.calls[id].offer
                           && pc.value.localDescription == Some(answer))
                     && (r.Ok? ==>
                           && db' == Subscribe(MergeAnswer(Claim(db, id, uid, now), id, answer),
                                               CandidateListener(id, PeerSide(Callee), 0))
                           && pc == Some(WithMedia(old(pc).value, old(localStream) != null, media)
                                           .(remoteDescription := db.calls[id].offer, localDescription := Some(answer))))
                     && (r.Err? ==>
                           && db' == Claim(db, id, uid, now)
                           && pc == (if old(pc).Some? then Some(WithMedia(old(pc).value, old(localStream) != null, media))
                                     else None)
                           && currentCallDoc == (if old(localStream) != null || (media != null && old(pc).Some?)
                                                 then Some(id) else old(currentCallDoc)))
    {
      if OpenIds(db.calls, uid) != {} {
        FirstOpenExists(db.calls, uid);
        var id :| IsFirstOpen(db.calls, uid, id);
        var claimed := Claim(db, id, uid, now);
        r, db' := AnswerCall(id, media, answer, claimed);
        assert db'.calls[id].(answer := db.calls[id].answer) == claimed.calls[id].(answer := db.calls[id].answer);
      } else {
        r, db' := CreateCall(uid, now, media, offer, db);
      }
    }

    /**
     * `cancelSearch`: delete the current record directly when the local user
     * created it (a failure there rejects before any cleanup), then always run
     * `cleanup`, which deletes the current record whoever created it.
     */
    method CancelSearch(uid: Uid, cancelDeleteOk: bool, cleanupDeleteOk: bool, db: Db)
      returns (r: Result<bool, Failure>, db': Db)
      requires Valid()
      modifies this, SessionTracks()
      ensures var owned := old(currentCallDoc).Some? && old(currentCallDoc).value in db.calls
                           && db.calls[old(currentCallDoc).value].createdBy == uid;
              && (owned && !cancelDeleteOk ==>
                    r == Err(StoreWriteFailed) && db' == db
                    && pc == old(pc) && localStream == old(localStream) && remoteStream == old(remoteStream)
                    && callRole == old(callRole) && currentCallDoc == old(currentCallDoc))
              && (!(owned && !cancelDeleteOk) ==> r == Ok(true) && Cleared())
              && (owned && cancelDeleteOk ==> db' == DeleteDoc(db, old(currentCallDoc).value))
              && (!owned && old(currentCallDoc).Some? ==>
                    db' == if cleanupDeleteOk then DeleteDoc(db, old(currentCallDoc).value) else db)
              && (old(currentCallDoc).None? ==> db' == db)
      ensures var owned := old(currentCallDoc).Some? && old(currentCallDoc).value in db.calls
                           && db.calls[old(currentCallDoc).value].createdBy == uid;
              && (owned && !cancelDeleteOk ==> forall t | t in old(SessionTracks()) :: t.readyState == old(t.readyState))
              && (!(owned && !cancelDeleteOk) ==>
                    forall t | t in old(TracksOf(localStream)) + old(TracksOf(remoteStream)) :: t.readyState == Ended)
      ensures old(currentCallDoc).Some? && cleanupDeleteOk && r.Ok? ==> old(currentCallDoc).value !in db'.calls
      ensures Valid() && onStreamUpdate == old(onStreamUpdate)
      ensures db.Valid() ==> db'.Valid()
    {
      var db1 := db;
      if currentCallDoc.Some? {
        var id := currentCallDoc.value;
        if id in db.calls && db.calls[id].createdBy == uid {
          if !cancelDeleteOk {
            return Err(StoreWriteFailed), db;
          }
          db1 := DeleteDoc(db, id);
        }
      }
      var ok, closed;
      ok, closed, db' := Cleanup(cleanupDeleteOk, db1);
      r := Ok(true);
    }
  }
  /** `cleanup` called twice: the second call deletes nothing and leaves the same state. */
  method CleanupTwice(s: WebRTCState, deleteOk: bool, deleteOkAgain: bool, db: Db) returns (db1: Db, db2: Db)
    modifies s, s.SessionTracks()
    ensures s.Cleared() && db2 == db1
    ensures db1 == if old(s.currentCallDoc).Some? && deleteOk then DeleteDoc(db, old(s.currentCallDoc).value) else db
  {
    var ok, closed;
    ok, closed, db1 := s.Cleanup(deleteOk, db);
    ok, closed, db2 := s.Cleanup(deleteOkAgain, db1);
  }

  /**
   * A search that finds nobody, then a cancel before a partner appears: the
   * record the search created is gone and the session is cleared.
   */
  method SearchThenCancel(s: WebRTCState, uid: Uid, now: int, media: MediaStream, offer: Description,
                          answer: Description, cleanupDeleteOk: bool, db: Db)
    returns (id: CallId, db': Db)
    requires s.Valid() && db.Valid() && s.pc.Some? && s.localStream == null
    requires OpenIds(db.calls, uid) == {}
    modifies s, s.SessionTracks(), set t | t in media.tracks
    ensures id == db.nextId && id !in db'.calls
    ensures forall i | i in db.calls :: i in db'.calls && db'.calls[i] == db.calls[i]
    ensures s.Cleared()
  {
    var r, db1 := s.SearchForPartner(uid, now, media, offer, answer, db);
    id := r.value;
    var c;
    c, db' := s.CancelSearch(uid, true, cleanupDeleteOk, db1);
  }

  /**
   * Two users search one after the other in a store where neither has a
   * partner: the first creates a waiting call as caller, the second claims
   * and answers that very call as callee, and once the record snapshot
   * reaches the caller each side holds the other's description.
   */
  method Rendezvous(a: WebRTCState, b: WebRTCState, uidA: Uid, uidB: Uid, tA: int, tB: int,
                    offer: Description, answer: Description, db: Db)
    returns (id: CallId, db': Db)
    requires a != b && uidA != uidB
    requires a.Valid() && b.Valid() && db.Valid()
    requires a.pc.Some? && a.pc.value.remoteDescription.None? && a.localStream != null
    requires b.pc.Some? && b.localStream != null
    requires OpenIds(db.calls, uidA) == {} && OpenIds(db.calls, uidB) == {}
    modifies a, b
    ensures id == db.nextId
    ensures a.callRole == Some(Caller) && a.currentCallDoc == Some(id)
    ensures b.callRole == Some(Callee) && b.currentCallDoc == Some(id)
    ensures id in db'.calls && db'.calls[id].createdBy == uidA && db'.calls[id].status == Matched
    ensures db'.calls[id].answeredBy == Some(uidB) && db'.calls[id].answer == Some(answer)
    ensures a.pc.Some? && a.pc.value.localDescription == Some(offer) && a.pc.value.remoteDescription == Some(answer)
    ensures b.pc.Some? && b.pc.value.localDescription == Some(answer) && b.pc.value.remoteDescription == Some(offer)
  {
    var ra, db1 := a.SearchForPartner(uidA, tA, null, offer, answer, db);
    id := ra.value;
    assert OpenIds(db1.calls, uidB) == {id} by {
      forall i | i in db1.calls && i != id ensures !IsOpen(db1.calls[i], uidB) {
        assert i in db.calls && db1.calls[i] == db.calls[i];
      }
    }
    var rb;
    rb, db' := b.SearchForPartner(uidB, tB, null, offer, answer, db1);
    var k := |db.listeners|;
    assert db'.listeners[k] == RecordListener(id);
    a.DeliverRecordSnapshot(k, db');
  }
}
