/**
 * Browser media objects as the engine and the video components use them.
 * Tracks and streams are objects: the engine's remote stream and the video
 * element's `srcObject` can be one stream, and stopping a track is visible to
 * every holder of it.
 */
module Media {

  datatype Kind = Audio | Video

  datatype ReadyState = Live | Ended

  /** A MediaStreamTrack: its kind and id never change; `Stop` ends it. */
  class Track {
    const kind: Kind
    const id: string
    var readyState: ReadyState

    constructor (kind: Kind, id: string)
      ensures this.kind == kind && this.id == id && readyState == Live
    {
      this.kind := kind;
      this.id := id;
      readyState := Live;
    }

    method Stop()
      modifies this
      ensures readyState == Ended
    {
      readyState := Ended;
    }
  }

  /** No track object occurs twice. */
  predicate Distinct(ts: seq<Track>) {
    forall i, j :: 0 <= i < j < |ts| ==> ts[i] != ts[j]
  }

  /**
   * The track list of a stream after `addTrack(t)`: a track already in the
   * stream is not added a second time; otherwise it goes at the end.
   */
  function WithTrack(ts: seq<Track>, t: Track): (r: seq<Track>)
    ensures t in r && (forall x | x in ts :: x in r) && (forall x | x in r :: x in ts || x == t)
    ensures ts <= r && |r| <= |ts| + 1
    ensures Distinct(ts) ==> Distinct(r)
  {
    if t in ts then ts else ts + [t]
  }

  /** The track list after adding every track of `ts`, one after the other. */
  function WithTracks(base: seq<Track>, ts: seq<Track>): (r: seq<Track>)
    ensures (forall x | x in ts :: x in r) && (forall x | x in r :: x in base || x in ts)
    ensures base <= r
    ensures Distinct(base) ==> Distinct(r)
  {
    if ts == [] then base else WithTrack(WithTracks(base, ts[..|ts| - 1]), ts[|ts| - 1])
  }

  /** A MediaStream: an ordered set of track objects. */
  class MediaStream {
    var tracks: seq<Track>

    constructor ()
      ensures tracks == []
    {
      tracks := [];
    }

    method AddTrack(t: Track)
      modifies this
      ensures tracks == WithTrack(old(tracks), t)
    {
      if t !in tracks {
        tracks := tracks + [t];
      }
    }
  }

  /** `stream?.getTracks() || []`. */
  function TracksOf(s: MediaStream?): (ts: seq<Track>)
    reads s
    ensures s == null ==> ts == []
    ensures s != null ==> ts == s.tracks
  {
    if s == null then [] else s.tracks
  }

  /** `tracks.forEach(track => track.stop())`. */
  method StopAll(ts: seq<Track>)
    modifies set t | t in ts
    ensures forall t :: t in ts ==> t.readyState == Ended
  {
    for i := 0 to |ts|
      invariant forall j :: 0 <= j < i ==> ts[j].readyState == Ended
    {
      ts[i].Stop();
    }
  }
}
