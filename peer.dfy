/**
 * The RTCPeerConnection as an abstract value: the descriptions it holds, the
 * remote candidates it has applied, the local tracks it sends, its two state
 * machines' current states, whether its connection-state handler is attached,
 * how many ICE restarts were requested, and whether it is closed.
 * SDP contents and ICE internals are opaque.
 */
module Peer {
  import opened Common
  import opened Media

  datatype SdpType = OfferType | AnswerType

  /** `{type, sdp}` as sent through the call record. */
  datatype Description = Description(kind: SdpType, sdp: string)

  /** One ICE candidate as `candidate.toJSON()` produced it. */
  datatype Candidate = Candidate(json: string)

  datatype ConnState = New | Connecting | Connected | Disconnected | Failed | Closed

  datatype IceState =
    IceNew | IceChecking | IceConnected | IceCompleted | IceDisconnected | IceFailed | IceClosed

  datatype PeerConn = PeerConn(
    localDescription: Option<Description>,
    remoteDescription: Option<Description>,
    remoteCandidates: seq<Candidate>,
    senders: seq<Track>,
    connectionState: ConnState,
    iceConnectionState: IceState,
    hasConnectionHandler: bool,
    iceRestarts: nat,
    closed: bool)

  /**
   * `new RTCPeerConnection(config)` followed by `setupPeerConnectionHandlers`:
   * nothing negotiated yet and the connection-state handler attached.
   */
  function NewPeerConnection(): (p: PeerConn)
    ensures p.localDescription.None? && p.remoteDescription.None?
    ensures p.remoteCandidates == [] && p.senders == []
    ensures p.connectionState == New && p.iceConnectionState == IceNew
    ensures p.hasConnectionHandler && p.iceRestarts == 0 && !p.closed
  {
    PeerConn(None, None, [], [], New, IceNew, true, 0, false)
  }

  /** The connection states on which the engine tears the call down. */
  function Ends(s: ConnState): (e: bool)
    ensures e <==> s != New && s != Connecting && s != Connected
  {
    s == Disconnected || s == Failed || s == Closed
  }

  /** The ICE states the remote video reports as a disconnection. */
  function IceEnds(s: IceState): (e: bool)
    ensures e <==> s != IceNew && s != IceChecking && s != IceConnected && s != IceCompleted
  {
    s == IceDisconnected || s == IceFailed || s == IceClosed
  }

  /**
   * `addIceCandidate(c)`: applied when the connection is open and has a
   * remote description; otherwise the returned promise rejects, nobody
   * handles it, and the candidate is lost.
   */
  function AddIceCandidate(p: PeerConn, c: Candidate): (r: PeerConn)
    ensures r.remoteCandidates ==
      if !p.closed && p.remoteDescription.Some? then p.remoteCandidates + [c] else p.remoteCandidates
    ensures r.(remoteCandidates := p.remoteCandidates) == p
  {
    if !p.closed && p.remoteDescription.Some? then p.(remoteCandidates := p.remoteCandidates + [c]) else p
  }

  /** `pc.addTrack(track, stream)` for every track, in order. */
  function AddSenders(p: PeerConn, ts: seq<Track>): (r: PeerConn)
    ensures |r.senders| == |p.senders| + |ts|
    ensures r.senders[..|p.senders|] == p.senders && r.senders[|p.senders|..] == ts
    ensures r.(senders := p.senders) == p
  {
    p.(senders := p.senders + ts)
  }

  /**
   * `pc.onconnectionstatechange = null; pc.close()`: the handler is detached
   * first, so closing cannot re-enter the teardown; close() itself fires no
   * state-change event.
   */
  function Close(p: PeerConn): (r: PeerConn)
    ensures r.closed && !r.hasConnectionHandler
    ensures r.connectionState == Closed && r.iceConnectionState == IceClosed
    ensures r.localDescription == p.localDescription && r.remoteDescription == p.remoteDescription
    ensures r.remoteCandidates == p.remoteCandidates && r.senders == p.senders
  {
    p.(hasConnectionHandler := false, closed := true, connectionState := Closed,
       iceConnectionState := IceClosed)
  }

  /**
   * The record snapshot listener of the caller: it applies the answer as the
   * remote description only while no remote description is set. An absent
   * connection makes the handler throw inside its try block: nothing changes.
   */
  function ApplyAnswer(pc: Option<PeerConn>, answer: Option<Description>): (r: Option<PeerConn>)
    ensures r.Some? <==> pc.Some?
    ensures r != pc <==> pc.Some? && pc.value.remoteDescription.None? && answer.Some?
    ensures r != pc ==> r == Some(pc.value.(remoteDescription := answer))
  {
    if pc.Some? && pc.value.remoteDescription.None? && answer.Some?
    then Some(pc.value.(remoteDescription := answer))
    else pc
  }

  /**
   * However many snapshots arrive, only the first one that carries an answer
   * changes the connection.
   */
  lemma AnswerAppliedAtMostOnce(pc: Option<PeerConn>, first: Option<Description>,
                                later: seq<Option<Description>>)
    requires ApplyAnswer(pc, first) != pc
    ensures ApplyAll(ApplyAnswer(pc, first), later) == ApplyAnswer(pc, first)
  {
    var p := ApplyAnswer(pc, first);
    assert p.Some? && p.value.remoteDescription.Some?;
    ApplyAllSettled(p, later);
  }

  /** The connection after a series of record snapshots, in delivery order. */
  function ApplyAll(pc: Option<PeerConn>, answers: seq<Option<Description>>): (r: Option<PeerConn>)
    ensures r.Some? <==> pc.Some?
    ensures r.Some? ==> r.value == pc.value.(remoteDescription := r.value.remoteDescription)
    ensures r.Some? && r.value.remoteDescription.None? ==> r == pc
    decreases answers
  {
    if answers == [] then pc else ApplyAll(ApplyAnswer(pc, answers[0]), answers[1..])
  }

  /** Once a remote description is set, record snapshots change nothing. */
  lemma {:induction false} ApplyAllSettled(pc: Option<PeerConn>, answers: seq<Option<Description>>)
    requires pc.Some? && pc.value.remoteDescription.Some?
    ensures ApplyAll(pc, answers) == pc
  {
    if answers != [] {
      ApplyAllSettled(ApplyAnswer(pc, answers[0]), answers[1..]);
    }
  }
}
