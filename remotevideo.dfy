/**
 * The remote-video component: whether an incoming stream must be assigned
 * to the video element, the disconnection overlay's classification, and the
 * stream-update registration in the session.
 */
module RemoteVideo {
  import opened Common
  import opened Media
  import Peer
  import Engine

  /** A track as the comparison sees it: its kind and its id. */
  function Key(t: Track): (Kind, string) {
    (t.kind, t.id)
  }

  function Keys(ts: seq<Track>): (k: set<(Kind, string)>)
    ensures forall t | t in ts :: Key(t) in k
    ensures forall x :: x in k <==> exists t | t in ts :: Key(t) == x
  {
    set t | t in ts :: Key(t)
  }

  /** No two tracks share a kind and an id. */
  predicate KeysDistinct(ts: seq<Track>) {
    forall i, j :: 0 <= i < j < |ts| ==> Key(ts[i]) != Key(ts[j])
  }

  /** Some track of `ts` has the kind and id of `t`. */
  predicate HasMatch(ts: seq<Track>, t: Track) {
    exists n | n in ts :: Key(n) == Key(t)
  }

  /**
   * `needsUpdate`: no current source, a different number of tracks, or a
   * current track without a new one of the same kind and id.
   */
  function NeedsUpdate(hasSource: bool, current: seq<Track>, incoming: seq<Track>): (u: bool)
    ensures !u <==> hasSource && |current| == |incoming| && (forall t | t in current :: Key(t) in Keys(incoming))
  {
    assert forall t | t in current :: HasMatch(incoming, t) <==> Key(t) in Keys(incoming);
    !hasSource || |current| != |incoming| || !(forall t | t in current :: HasMatch(incoming, t))
  }

  /** Offering the tracks already shown never reassigns. */
  lemma SameTracksNoUpdate(ts: seq<Track>)
    ensures !NeedsUpdate(true, ts, ts)
  {
    forall t | t in ts
      ensures HasMatch(ts, t)
    {
      assert Key(t) == Key(t);
    }
  }

  /** Distinct keys of a sequence number as many as its elements. */
  lemma {:induction false} KeysCard(ts: seq<Track>)
    requires KeysDistinct(ts)
    ensures |Keys(ts)| == |ts|
    decreases |ts|
  {
    if ts != [] {
      var init := ts[..|ts| - 1];
      var last := ts[|ts| - 1];
      assert KeysDistinct(init);
      KeysCard(init);
      assert Keys(ts) == Keys(init) + {Key(last)} by {
        forall k ensures k in Keys(ts) <==> k in Keys(init) + {Key(last)} {
          if k in Keys(ts) {
            var t :| t in ts && Key(t) == k;
            var i :| 0 <= i < |ts| && ts[i] == t;
            if i < |ts| - 1 { assert init[i] == t; }
          }
        }
      }
      assert Key(last) !in Keys(init);
    }
  }

  /** A sequence has no more distinct keys than elements. */
  lemma {:induction false} KeysCardBound(ts: seq<Track>)
    ensures |Keys(ts)| <= |ts|
    decreases |ts|
  {
    if ts != [] {
      var init := ts[..|ts| - 1];
      KeysCardBound(init);
      assert Keys(ts) <= Keys(init) + {Key(ts[|ts| - 1])} by {
        forall k | k in Keys(ts) ensures k in Keys(init) + {Key(ts[|ts| - 1])} {
          var t :| t in ts && Key(t) == k;
          var i :| 0 <= i < |ts| && ts[i] == t;
          if i < |ts| - 1 { assert init[i] == t; }
        }
      }
      SubsetCard(Keys(ts), Keys(init) + {Key(ts[|ts| - 1])});
    }
  }

  /**
   * When the shown tracks have distinct keys, the element keeps its source
   * exactly when the new stream shows the same kinds and ids.
   */
  lemma NoUpdateIffSameKeys(current: seq<Track>, incoming: seq<Track>)
    requires KeysDistinct(current) && |current| == |incoming|
    ensures !NeedsUpdate(true, current, incoming) <==> Keys(current) == Keys(incoming)
  {
    if !NeedsUpdate(true, current, incoming) {
      assert Keys(current) <= Keys(incoming) by {
        forall k | k in Keys(current) ensures k in Keys(incoming) {
          var t :| t in current && Key(t) == k;
          assert HasMatch(incoming, t);
          var n :| n in incoming && Key(n) == Key(t);
        }
      }
      KeysCard(current);
      KeysCardBound(incoming);
      SubsetOfNoLarger(Keys(current), Keys(incoming));
    }
  }

  /** A subset is no larger than its superset. */
  lemma {:induction false} SubsetCard<T>(a: set<T>, b: set<T>)
    requires a <= b
    ensures |a| <= |b|
    decreases |a|
  {
    if a != {} {
      var x :| x in a;
      SubsetCard(a - {x}, b - {x});
    }
  }

  /** A subset no smaller than its superset is the whole superset. */
  lemma SubsetOfNoLarger<T>(a: set<T>, b: set<T>)
    requires a <= b && |b| <= |a|
    ensures a == b
  {
    if a != b {
      var x :| x in b && x !in a;
      SubsetCard(a, b - {x});
    }
  }

  /** The overlay's classification: either state machine disconnected, failed or closed. */
  function RemoteGone(pc: Peer.PeerConn): (g: bool)
    ensures Peer.Ends(pc.connectionState) ==> g
    ensures pc.iceConnectionState == Peer.IceDisconnected ==> g
    ensures !g ==> pc.connectionState != Peer.Closed && pc.iceConnectionState != Peer.IceClosed
  {
    Peer.Ends(pc.connectionState) || Peer.IceEnds(pc.iceConnectionState)
  }

  /** The name under which this component registers in the session. */
  const Registration: Engine.StreamListener := Engine.StreamListener("RemoteVideo")

  /** The component's ref and state hooks. */
  class Component {
    /** Whether `videoRef.current` is attached. */
    var videoMounted: bool
    var srcObject: MediaStream?
    var hasStream: bool
    var streamError: Option<string>
    var remoteDisconnected: bool

    constructor (videoMounted: bool)
      ensures this.videoMounted == videoMounted && srcObject == null
      ensures !hasStream && streamError.None? && !remoteDisconnected
    {
      this.videoMounted := videoMounted;
      srcObject, hasStream, streamError, remoteDisconnected := null, false, None, false;
    }

    /**
     * `updateVideoStream`. A missing or empty stream only clears `hasStream`.
     * Otherwise the stream is assigned to the element when the comparison
     * asks for it, which marks the stream present and clears the error; the
     * same stream object as the current source is never reassigned.
     */
    method UpdateVideoStream(stream: MediaStream?) returns (reassigned: bool)
      modifies this
      ensures stream == null || |stream.tracks| == 0 ==>
                !reassigned && !hasStream && srcObject == old(srcObject) && streamError == old(streamError)
      ensures stream != null && |stream.tracks| > 0 ==>
                reassigned == (videoMounted && NeedsUpdate(old(srcObject) != null, old(TracksOf(srcObject)), stream.tracks))
      ensures reassigned ==> srcObject == stream && hasStream && streamError.None?
      ensures !reassigned && stream != null && |stream.tracks| > 0 ==>
                srcObject == old(srcObject) && hasStream == old(hasStream) && streamError == old(streamError)
      ensures stream != null && stream == old(srcObject) ==> !reassigned
      ensures videoMounted == old(videoMounted) && remoteDisconnected == old(remoteDisconnected)
    {
      if stream == null || |stream.tracks| == 0 {
        hasStream := false;
        return false;
      }
      reassigned := false;
      if videoMounted {
        var current := TracksOf(srcObject);
        if stream == srcObject {
          SameTracksNoUpdate(current);
        }
        if NeedsUpdate(srcObject != null, current, stream.tracks) {
          srcObject := stream;
          hasStream := true;
          streamError := None;
          reassigned := true;
        }
      }
    }

    /** One tick of the disconnection monitor; nothing happens without a connection. */
    method MonitorTick(pc: Option<Peer.PeerConn>)
      modifies this
      ensures pc.Some? ==> (remoteDisconnected <==>
                 Peer.Ends(pc.value.connectionState) || Peer.IceEnds(pc.value.iceConnectionState))
      ensures pc.None? ==> remoteDisconnected == old(remoteDisconnected)
      ensures videoMounted == old(videoMounted) && srcObject == old(srcObject)
      ensures hasStream == old(hasStream) && streamError == old(streamError)
    {
      if pc.Some? {
        remoteDisconnected := RemoteGone(pc.value);
      }
    }

    /**
     * The mount effect: register for stream updates, then show the session's
     * remote stream if there already is one.
     */
    method Mount(session: Engine.WebRTCState) returns (reassigned: bool)
      modifies this, session
      ensures session.onStreamUpdate == Some(Registration)
      ensures session.pc == old(session.pc) && session.localStream == old(session.localStream)
      ensures session.remoteStream == old(session.remoteStream)
      ensures session.callRole == old(session.callRole) && session.currentCallDoc == old(session.currentCallDoc)
      ensures session.remoteStream == null ==>
                !reassigned && srcObject == old(srcObject) && hasStream == old(hasStream) && streamError == old(streamError)
      ensures session.remoteStream != null && |session.remoteStream.tracks| == 0 ==>
                !reassigned && !hasStream && srcObject == old(srcObject) && streamError == old(streamError)
      ensures session.remoteStream != null && |session.remoteStream.tracks| > 0 ==>
                reassigned == (videoMounted && NeedsUpdate(old(srcObject) != null, old(TracksOf(srcObject)),
                                                           session.remoteStream.tracks))
      ensures !reassigned && session.remoteStream != null && |session.remoteStream.tracks| > 0 ==>
                srcObject == old(srcObject) && hasStream == old(hasStream) && streamError == old(streamError)
      ensures reassigned ==> srcObject == session.remoteStream && hasStream && streamError.None?
      ensures videoMounted == old(videoMounted) && remoteDisconnected == old(remoteDisconnected)
    {
      session.onStreamUpdate := Some(Registration);
      reassigned := false;
      if session.remoteStream != null {
        reassigned := UpdateVideoStream(session.remoteStream);
      }
    }

    /** The unmount effect: the session no longer calls this component. */
    method Unmount(session: Engine.WebRTCState)
      modifies session
      ensures session.onStreamUpdate.None?
      ensures session.pc == old(session.pc) && session.localStream == old(session.localStream)
      ensures session.remoteStream == old(session.remoteStream)
      ensures session.callRole == old(session.callRole) && session.currentCallDoc == old(session.currentCallDoc)
    {
      session.onStreamUpdate := None;
    }
  }
  /**
   * A track event in the session reaching a mounted, registered component.
   * A first event puts the session's remote stream on the element; a later
   * event grows that same stream object, which the element already shows,
   * so nothing is reassigned.
   */
  method DeliverTrackEvent(session: Engine.WebRTCState, view: Component, streams: seq<MediaStream>)
    returns (reassigned: bool)
    requires |streams| > 0 && session.onStreamUpdate == Some(Registration) && view.videoMounted
    modifies session, session.remoteStream, view
    ensures session.remoteStream != null
    ensures old(session.remoteStream) != null && old(view.srcObject) == old(session.remoteStream) ==>
              !reassigned && view.srcObject == session.remoteStream
    ensures old(view.srcObject) == null && |session.remoteStream.tracks| > 0 ==>
              reassigned && view.srcObject == session.remoteStream && view.hasStream
  {
    var notified := session.OnTrack(streams);
    reassigned := view.UpdateVideoStream(notified);
  }
}
