/**
 * The local-video component: the UI status machine around the engine, the
 * control the status selects, when the search button is disabled, and when
 * the connection monitor ends the call.
 *
 * Each handler is split at its `await`: a `Begin` step runs the synchronous
 * prefix and a `Finish` step runs what follows, given the outcome of the
 * awaited engine call (its value, or the message of what it threw).
 */
module LocalVideo {
  import opened Common
  import Media
  import Peer
  import Store
  import Engine

  datatype UiStatus = Disconnected | Searching | Waiting | Connected | Disconnecting | Canceling

  /** The one control the render shows. */
  datatype Control = SearchButton | CancelSearchButton | EndCallButton

  /** The render's choice: search when disconnected, cancel when searching, end call otherwise. */
  function ControlFor(status: UiStatus): (c: Control)
    ensures c == SearchButton <==> status == Disconnected
    ensures c == CancelSearchButton <==> status == Searching
    ensures c == EndCallButton <==> status != Disconnected && status != Searching
  {
    if status == Disconnected then SearchButton
    else if status == Searching then CancelSearchButton
    else EndCallButton
  }

  const MediaMarker: string := "camera/microphone"

  /** The search button's `disabled`: searching, or an error about the camera or microphone. */
  function SearchDisabled(isSearching: bool, error: Option<string>): (d: bool)
    ensures !isSearching && error.None? ==> !d
    ensures isSearching ==> d
  {
    isSearching || (error.Some? && Contains(error.value, MediaMarker))
  }

  /** The error `initializeWebRTC` shows when media access fails. */
  function MediaError(msg: string): (e: string)
    ensures |e| == |MediaPrefix| + |msg|
    ensures e[..|MediaPrefix|] == MediaPrefix && e[|MediaPrefix|..] == msg
  {
    MediaPrefix + msg
  }

  const MediaPrefix: string := "Failed to access camera/microphone: "

  /**
   * Whatever the browser's message, a media failure disables the search
   * button until a retry succeeds.
   */
  lemma MediaErrorDisablesSearch(msg: string)
    ensures SearchDisabled(false, Some(MediaError(msg)))
  {
    ContainsInfix("Failed to access ", MediaMarker, ": " + msg);
    assert "Failed to access " + MediaMarker + (": " + msg) == MediaPrefix + msg;
  }

  /** The connection monitor's condition for calling `handleEndCall`. */
  predicate MonitorEndsCall(pc: Option<Peer.PeerConn>) {
    pc.Some? && Peer.Ends(pc.value.connectionState)
  }

  /** The component's state hooks. */
  class Component {
    var callId: Option<Store.CallId>
    var error: Option<string>
    var status: UiStatus
    var isSearching: bool

    /** The initial `useState` values: no call id, no error, disconnected, not searching. */
    constructor ()
      ensures callId.None? && error.None? && status == Disconnected && !isSearching
    {
      callId, error, status, isSearching := None, None, Disconnected, false;
    }

    /** `initializeWebRTC` after `setupMediaSources` resolved. */
    method MediaReady()
      modifies this
      ensures error.None?
      ensures callId == old(callId) && status == old(status) && isSearching == old(isSearching)
    {
      error := None;
    }

    /** `initializeWebRTC` after `setupMediaSources` threw with message `msg`. */
    method MediaFailed(msg: string)
      modifies this
      ensures error == Some(MediaError(msg))
      ensures callId == old(callId) && status == old(status) && isSearching == old(isSearching)
    {
      error := Some(MediaError(msg));
    }

    /** `handleSearch` up to its first `await`. */
    method BeginSearch()
      modifies this
      ensures isSearching && status == Searching && error.None?
      ensures callId == old(callId)
      ensures ControlFor(status) == CancelSearchButton
    {
      isSearching := true;
      status := Searching;
      error := None;
    }

    /**
     * `handleSearch` after `searchForPartner` settled, with `role` the
     * session's role at that point: connected as callee, waiting otherwise;
     * on a throw, disconnected with the error shown. Searching is over
     * either way.
     */
    method FinishSearch(outcome: Result<Store.CallId, string>, role: Option<Store.Role>)
      modifies this
      ensures !isSearching
      ensures outcome.Ok? ==> callId == Some(outcome.value) && error == old(error)
                              && status == (if role == Some(Store.Callee) then Connected else Waiting)
      ensures outcome.Err? ==> callId == old(callId) && status == Disconnected
                               && error == Some("Failed to find partner: " + outcome.error)
    {
      if outcome.Ok? {
        callId := Some(outcome.value);
        if role == Some(Store.Callee) {
          status := Connected;
        } else {
          status := Waiting;
        }
      } else {
        error := Some("Failed to find partner: " + outcome.error);
        status := Disconnected;
      }
      isSearching := false;
    }

    /** `handleEndCall` up to its `await cleanup()`. */
    method BeginEndCall()
      modifies this
      ensures status == Disconnecting
      ensures callId == old(callId) && error == old(error) && isSearching == old(isSearching)
    {
      status := Disconnecting;
    }

    /**
     * `handleEndCall` after `cleanup` settled: disconnected either way; on
     * success the call id and the error are cleared.
     */
    method FinishEndCall(outcome: Result<bool, string>)
      modifies this
      ensures status == Disconnected && isSearching == old(isSearching)
      ensures ControlFor(status) == SearchButton
      ensures outcome.Ok? ==> callId.None? && error.None?
      ensures outcome.Err? ==> callId == old(callId) && error == Some("Failed to end call properly: " + outcome.error)
    {
      if outcome.Ok? {
        status := Disconnected;
        callId := None;
        error := None;
      } else {
        error := Some("Failed to end call properly: " + outcome.error);
        status := Disconnected;
      }
    }

    /** `handleCancelSearch` up to its `await cancelSearch()`. */
    method BeginCancelSearch()
      modifies this
      ensures status == Canceling
      ensures callId == old(callId) && error == old(error) && isSearching == old(isSearching)
    {
      status := Canceling;
    }

    /**
     * `handleCancelSearch` after `cancelSearch` settled: disconnected either
     * way; success also ends searching and clears the call id, failure
     * shows the error and leaves both as they were.
     */
    method FinishCancelSearch(outcome: Result<bool, string>)
      modifies this
      ensures status == Disconnected
      ensures outcome.Ok? ==> !isSearching && callId.None? && error == old(error)
      ensures outcome.Err? ==> isSearching == old(isSearching) && callId == old(callId)
                               && error == Some("Failed to cancel search: " + outcome.error)
    {
      if outcome.Ok? {
        status := Disconnected;
        isSearching := false;
        callId := None;
      } else {
        error := Some("Failed to cancel search: " + outcome.error);
        status := Disconnected;
      }
    }
  }

  /**
   * One tick of the connection monitor. When the session's connection is
   * disconnected, failed or closed it runs `handleEndCall`: the status passes
   * through disconnecting, `cleanup` (which always reports success) tears the
   * session down, and the component ends disconnected with no call id and no
   * error. Otherwise nothing changes. Either way the next tick finds nothing
   * to end, so the monitor never ends one call twice.
   */
  method ConnectionMonitorTick(view: Component, session: Engine.WebRTCState, deleteOk: bool, db: Store.Db)
    returns (ended: bool, db': Store.Db)
    modifies view, session, session.SessionTracks()
    ensures ended <==> old(session.pc).Some? && Peer.Ends(old(session.pc).value.connectionState)
    ensures ended ==>
              && session.Cleared()
              && view.status == Disconnected && view.callId.None? && view.error.None?
              && db' == (if old(session.currentCallDoc).Some? && deleteOk
                         then Store.DeleteDoc(db, old(session.currentCallDoc).value) else db)
              && forall t | t in old(Media.TracksOf(session.localStream)) + old(Media.TracksOf(session.remoteStream)) ::
                   t.readyState == Media.Ended
    ensures !ended ==>
              && db' == db && unchanged(view, session)
              && forall t | t in old(session.SessionTracks()) :: t.readyState == old(t.readyState)
    ensures !MonitorEndsCall(session.pc)
    ensures view.isSearching == old(view.isSearching) && session.onStreamUpdate == old(session.onStreamUpdate)
  {
    ended := MonitorEndsCall(session.pc);
    db' := db;
    if ended {
      view.BeginEndCall();
      var ok, closed;
      ok, closed, db' := session.Cleanup(deleteOk, db);
      view.FinishEndCall(Ok(ok));
    }
  }
}
