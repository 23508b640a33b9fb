# yapspace call engine in Dafny

yapspace pairs two anonymous browser users for a one-to-one video call. It uses a
shared Firestore collection `calls` for rendezvous and signalling, and a WebRTC peer
connection for media. This project models the core of that system and proves
properties of the model:

- the process-wide session object `webRTCState` and the engine operations that drive a
  call through the store and the peer connection (`webRTCGlobal.js`): search, create,
  answer, candidate routing, track aggregation, connection-state handling, cleanup and
  cancel;
- the daily server sweep that expires stale call records (`cloudFunctions.js`);
- the decision logic of the three client components: the local-video status machine,
  the remote-video stream comparison and disconnection overlay, and the floating text
  messages.

Layout, one Dafny module per file:

| file | module | models |
|---|---|---|
| common.dfy | `Common` | `Option`, `Result`, JavaScript `includes` |
| media.dfy | `Media` | `MediaStreamTrack` and `MediaStream` as classes (aliasing matters: the engine's remote stream and the video element's `srcObject` can be one object) |
| peer.dfy | `Peer` | `RTCPeerConnection` as an abstract value: descriptions, applied remote candidates, senders, state machines, handler attached, closed |
| store.dfy | `Store` | the `calls` collection: records, the two candidate sub-collections per call, live listeners, the partner query and its order |
| engine.dfy | `Engine` | `webRTCState` as the class `WebRTCState`, and every engine operation as a method on it |
| expiry.dfy | `Expiry` | `cleanupOldCalls` |
| localvideo.dfy | `LocalVideo` | `LocalVideo.jsx` handlers and render decisions |
| remotevideo.dfy | `RemoteVideo` | `RemoteVideo.jsx` |
| textsender.dfy | `TextSender` | `textSender.jsx` |

How the model is set up:

- **Foreign calls become parameters.**
  - `getUserMedia` gives the stream it resolves to, or null when it rejects.
  - `createOffer` and `createAnswer` give the description they resolve to.
  - Each `deleteDoc` has a flag saying whether it succeeds.
  - The signed-in user id and the clock are plain arguments.
- **A thrown exception becomes an `Err` result.** It is raised at the exact step where
  the source throws. A null `webRTCState.pc` is `Err(NoPeerConnection)`, the
  `TypeError` of the source.
- **Every handler is one atomic step.** Live listeners are records in the store. The
  methods `DeliverRecordSnapshot` and `DeliverCandidateSnapshot` run a listener's
  callback whenever the environment chooses.
- **`created` is a millisecond number.** The source writes it as
  `new Date().toISOString()`. UTC ISO strings with four-digit years sort the same way
  as the times they denote.

In several places the code does something other than what a reader would expect of
such a system; the model follows the code:

- **The claim is unconditional.** An atomic conditional `waiting → matched` transition
  with a retry would be expected. The code does a plain `updateDoc` with
  no guard and no retry (`webRTCGlobal.js:522-526`). `Store.LaterClaimOverwrites`
  shows that the later of two claims wins.
- **Cancel ignores ownership.** Cancelling would be expected never to delete someone
  else's record. `cancelSearch` checks the owner, but the `cleanup` it always runs deletes
  `currentCallDoc` unconditionally. See `Engine.WebRTCState.CancelSearch`.
- **Listeners are never unsubscribed.** The code registers `onSnapshot` listeners and
  never removes them, so they stay in `Store.Db.listeners` after cleanup.
- **A `disconnected` connection state ends the call.** The code tears down on connection
  state `disconnected` (`webRTCGlobal.js:161-167`). Only the ICE `disconnected` state is
  waited out.
- **Early candidates are lost, not delayed.** A candidate that arrives before the remote
  description is applied is rejected by `addIceCandidate`. The listener never delivers
  it again, so it is never applied. See `Engine.EarlyCandidatesAreLost`.
- **A failed `answerCall` leaves the session half built.** It keeps `callRole` set; a
  failure after media acquisition (no record or offer, or no connection) also keeps
  `currentCallDoc` set, and a claimed record stays `matched`.

## Model

| member | source | states |
|---|---|---|
| Common.Contains | src/components/LocalVideo/LocalVideo.jsx:171 | `includes`: the empty string occurs in every string, and no string occurs in a shorter one |
| Media.Track.constructor | src/webrtc/webRTCGlobal.js:254-257 | a new track is live, with a fixed kind and id |
| Media.Track.Stop | src/webrtc/webRTCGlobal.js:469 | `track.stop()` ends the track |
| Media.WithTrack | src/webrtc/webRTCGlobal.js:235 | `addTrack` contains the new track, keeps every earlier track in order, adds at most one, and never duplicates a track |
| Media.WithTracks | src/webrtc/webRTCGlobal.js:233-236 | adding many tracks keeps the base stream as a prefix, contains exactly the base and new tracks, and keeps tracks distinct |
| Media.MediaStream.constructor | src/webrtc/webRTCGlobal.js:230 | `new MediaStream()` has no tracks |
| Media.MediaStream.AddTrack | src/webrtc/webRTCGlobal.js:235 | the stream's tracks become `WithTrack` of the old tracks |
| Media.StopAll | src/webrtc/webRTCGlobal.js:468-470 | after the loop, every listed track is ended |
| Media.TracksOf | src/components/RemoteVideo/RemoteVideo.jsx:24 | `srcObject?.getTracks()` with the empty fallback: a missing stream has no tracks, an existing one gives its own track list |
| Peer.NewPeerConnection | src/webrtc/webRTCGlobal.js:97-98 | a fresh connection has no descriptions, candidates or senders, is in state new, has its handler attached and is open |
| Peer.Ends | src/webrtc/webRTCGlobal.js:161-163 | the engine tears down in exactly three connection states; new, connecting and connected never end a call |
| Peer.IceEnds | src/components/RemoteVideo/RemoteVideo.jsx:90-92 | the remote video counts exactly disconnected, failed and closed as ICE disconnection; new, checking, connected and completed do not |
| Peer.AddIceCandidate | src/webrtc/webRTCGlobal.js:346 | a candidate is applied only on an open connection with a remote description; otherwise it is lost; nothing else changes |
| Peer.AddSenders | src/webrtc/webRTCGlobal.js:269-272 | the senders are the old senders followed by the stream's tracks in order; nothing else changes |
| Peer.Close | src/webrtc/webRTCGlobal.js:455-463 | closing detaches the handler, closes both state machines, and keeps descriptions, candidates and senders |
| Peer.ApplyAnswer | src/webrtc/webRTCGlobal.js:329-333 | the snapshot changes the connection if and only if there is a connection without a remote description and the record has an answer; the change sets exactly that answer |
| Peer.AnswerAppliedAtMostOnce | src/webrtc/webRTCGlobal.js:326-337 | after the first answer is applied, any series of later snapshots leaves the connection unchanged |
| Peer.ApplyAll | src/webrtc/webRTCGlobal.js:326-337 | any series of record snapshots keeps the connection present or absent, changes nothing but the remote description, and leaves it unchanged while no answer has been applied |
| Peer.ApplyAllSettled | src/webrtc/webRTCGlobal.js:329 | with a remote description set, no series of snapshots changes the connection |
| Store.PeerSideIsOtherSide | src/webrtc/webRTCGlobal.js:144-150 | the side a role writes its candidates to (`SideOf`, used by `HandleIceCandidate`) is never the side it listens to (`PeerSide`, used by `CreateCall` and `AnswerCall`), and each role listens to exactly the side the other role writes |
| Store.FreshIdIsUnused | src/webrtc/webRTCGlobal.js:301 | a freshly generated document id has no record and empty sub-collections |
| Store.ReserveId | src/webrtc/webRTCGlobal.js:300-302 | `doc(callsRef)` writes nothing; only the id generator advances |
| Store.AppendCandidate | src/webrtc/webRTCGlobal.js:144-150 | `addDoc` appends the candidate to exactly one sub-collection; records, listeners and every other sub-collection are unchanged |
| Store.WaitingRecord | src/webrtc/webRTCGlobal.js:315-323 | the created record holds the offer, is waiting, is owned by the creator, carries `created`, and has no answer, answerer or stamps |
| Store.SetDoc | src/webrtc/webRTCGlobal.js:315-323 | `setDoc` without merge replaces the whole document; other records are unchanged |
| Store.MergeAnswer | src/webrtc/webRTCGlobal.js:404 | a merged answer changes only the `answer` field; offer, status, owner and stamps are kept |
| Store.Claim | src/webrtc/webRTCGlobal.js:522-526 | the claim sets matched, `answeredBy` and `matchedAt` with no condition on the current status; other records are unchanged |
| Store.LaterClaimOverwrites | src/webrtc/webRTCGlobal.js:522-526 | two claims of one record both succeed, and the result is that of the later claim alone |
| Store.DeleteDoc | src/webrtc/webRTCGlobal.js:444 | `deleteDoc` removes the record but not its candidate sub-collections or listeners; deleting an absent record changes nothing |
| Store.Subscribe | src/webrtc/webRTCGlobal.js:326 | `onSnapshot` registers one more listener and changes nothing else |
| Store.OpenIds | src/webrtc/webRTCGlobal.js:508-510 | the query's candidates are exactly the waiting records not created by the searcher |
| Store.IsOpen | src/webrtc/webRTCGlobal.js:509-510 | the query never returns the searcher's own record, nor a matched or expired one |
| Store.StrLessIrreflexive | src/webrtc/webRTCGlobal.js:511 | the string order of `orderBy('createdBy')` is irreflexive |
| Store.StrLessTransitive | src/webrtc/webRTCGlobal.js:511 | the string order is transitive |
| Store.StrLessTotal | src/webrtc/webRTCGlobal.js:511 | any two different strings are ordered one way or the other |
| Store.BeforeIrreflexive | src/webrtc/webRTCGlobal.js:511-512 | the query order by (createdBy, created, id) is irreflexive |
| Store.BeforeTransitive | src/webrtc/webRTCGlobal.js:511-512 | the query order is transitive |
| Store.BeforeTotal | src/webrtc/webRTCGlobal.js:511-512 | the query order relates any two different records |
| Store.BeforeAsymmetric | src/webrtc/webRTCGlobal.js:511-512 | no two records come before each other |
| Store.Before | src/webrtc/webRTCGlobal.js:511-512 | records of different creators are ordered by creator string; records of one creator by creation time, then by id |
| Store.FirstOfExists | src/webrtc/webRTCGlobal.js:513 | every non-empty set of records has a first element in the query order |
| Store.FirstOpenExists | src/webrtc/webRTCGlobal.js:513-517 | when any open record exists, `limit(1)` returns one |
| Store.FirstOpenUnique | src/webrtc/webRTCGlobal.js:513 | `limit(1)` picks at most one record: the first is unique |
| Store.IsFirstOpen | src/webrtc/webRTCGlobal.js:513 | the query's result is an open record of someone else, and no open record comes before it |
| Store.FirstIsUnpreceded | src/webrtc/webRTCGlobal.js:511-513 | nothing in a set of records comes before the set's first record |
| Engine.AddedCandidates | src/webrtc/webRTCGlobal.js:341-342 | only added changes contribute, so there are never more candidates than changes, and all when every change is added |
| Engine.ApplyChanges | src/webrtc/webRTCGlobal.js:340-352 | on an open connection with a remote description, the added candidates are appended in snapshot order; otherwise the connection is unchanged |
| Engine.NewEntries | src/webrtc/webRTCGlobal.js:341 | a snapshot's changes add exactly the entries appended since the listener's last delivery |
| Engine.AddedOfAllAdded | src/webrtc/webRTCGlobal.js:341-342 | when every change is an addition, every candidate is applied, in order |
| Engine.AddedCandidatesAppend | src/webrtc/webRTCGlobal.js:341-351 | the candidates of consecutive snapshots concatenate |
| Engine.DeliveriesApplyEachEntryOnce | src/webrtc/webRTCGlobal.js:407-418 | two deliveries apply each entry once, in append order, the same as one delivery of everything |
| Engine.EarlyCandidatesAreLost | src/webrtc/webRTCGlobal.js:340-352 | candidates delivered before the answer are never applied, even after the answer arrives |
| Engine.AddAllTracks | src/webrtc/webRTCGlobal.js:233-236 | the `forEach addTrack` loop leaves the stream's tracks equal to `WithTracks` of the old tracks |
| Engine.WithMedia | src/webrtc/webRTCGlobal.js:269-272 | acquiring media only appends the stream's tracks as senders and changes nothing else; with media already present or none acquired the connection is unchanged |
| Engine.WebRTCState.constructor | src/webrtc/webRTCGlobal.js:44-51 | at load every field of `webRTCState` is null |
| Engine.WebRTCState.InitializePeerConnection | src/webrtc/webRTCGlobal.js:91-109 | both the fetched and the fallback configuration install a fresh connection with its handlers; no other field changes |
| Engine.WebRTCState.SetupMediaSources | src/webrtc/webRTCGlobal.js:247-280 | a rejected `getUserMedia` throws and changes nothing; otherwise the stream becomes local and its tracks are added as senders, and a null connection throws after the stream is stored |
| Engine.WebRTCState.HandleIceCandidate | src/webrtc/webRTCGlobal.js:112-154 | a candidate is appended to the `SideOf` side of the local role for the current document only, and never to the side the session listens to; with no candidate, document or role nothing is written, and the collection stays well formed |
| Engine.WebRTCState.OnTrack | src/webrtc/webRTCGlobal.js:227-243 | the remote stream is created only if null; the event's tracks are added to it, keeping earlier ones; the renderer is notified with that same stream only if registered; an event without streams throws after creating the stream |
| Engine.WebRTCState.OnConnectionStateChange | src/webrtc/webRTCGlobal.js:158-168 | disconnected, failed or closed, with the handler attached, runs cleanup: the session is cleared, every local and remote track is ended, and the current record is deleted when possible; any other state only updates the connection and leaves every track as it was |
| Engine.WebRTCState.OnIceConnectionStateChange | src/webrtc/webRTCGlobal.js:170-205 | `failed` requests exactly one ICE restart; every other ICE state, `disconnected` included, only records the state |
| Engine.WebRTCState.OnRecordSnapshot | src/webrtc/webRTCGlobal.js:326-337 | the connection becomes `ApplyAnswer` of the snapshot's answer, and a deleted record changes nothing |
| Engine.WebRTCState.OnCandidateSnapshot | src/webrtc/webRTCGlobal.js:340-352 | the `forEach` loop over the changes leaves the connection equal to `ApplyChanges` |
| Engine.WebRTCState.DeliverRecordSnapshot | src/webrtc/webRTCGlobal.js:326-337 | a record listener gets the current record of its call and applies its answer at most once |
| Engine.WebRTCState.DeliverCandidateSnapshot | src/webrtc/webRTCGlobal.js:407-418 | a candidate listener applies the entries appended since its last delivery, in order, to an open connection with a remote description, then counts them as seen |
| Engine.WebRTCState.CreateCall | src/webrtc/webRTCGlobal.js:283-359 | the role is caller; media is acquired only if missing; a fresh document, with no record and no candidates yet, becomes current before the offer; a null connection throws after that; on success the offer is local, a waiting record owned by the user is written, and the record and answer-side listeners are registered |
| Engine.WebRTCState.AnswerCall | src/webrtc/webRTCGlobal.js:362-425 | the role is callee and the document is current; a missing record or offer throws before any description is applied and writes nothing; on success the offer is remote, the answer is local, the answer is merged into the record, and the offer-side listener is registered |
| Engine.WebRTCState.Cleanup | src/webrtc/webRTCGlobal.js:428-501 | deletes the current record when the delete succeeds and goes on when it fails; closes the connection with its handler detached; ends every local and remote track; nulls every field but `onStreamUpdate`; returns true; on a cleared session it changes nothing |
| Engine.WebRTCState.SearchForPartner | src/webrtc/webRTCGlobal.js:504-536 | with no open record the user creates a waiting call as caller, with the exact new store and connection on success and on each failure; otherwise the first open record in query order is claimed for the user and answered as callee: on success the store is the claim, the merged answer and the offer-side listener, and on failure the store is exactly the claim (the record stays matched) with the connection and current document as `answerCall` left them |
| Engine.WebRTCState.CancelSearch | src/webrtc/webRTCGlobal.js:539-574 | an owned current record is deleted directly, and if that fails the call rejects before cleanup with the session and every track untouched; otherwise cleanup always runs, deleting the current record whoever owns it and ending every local and remote track |
| Engine.CleanupTwice | src/webrtc/webRTCGlobal.js:428-501 | a second cleanup deletes nothing and leaves the same cleared state |
| Engine.SearchThenCancel | src/webrtc/webRTCGlobal.js:539-574 | searching with no partner and then cancelling removes the created record, leaves every other record, and clears the session |
| Engine.Rendezvous | src/webrtc/webRTCGlobal.js:504-536 | a second user's search claims and answers exactly the call the first user created, and after the record snapshot each side holds the other's description |
| Expiry.StaleIds | src/functions/cloudFunctions.js:9-12 | a record is selected exactly when it was created over a day before now and is waiting or matched |
| Expiry.Expire | src/functions/cloudFunctions.js:16-19 | the partial update sets `expired` and the stamp and keeps every other field |
| Expiry.ExpireStale | src/functions/cloudFunctions.js:14-22 | after the commit, selected records are expired and all others are unchanged; no record is added or removed |
| Expiry.CleanupOldCalls | src/functions/cloudFunctions.js:2-26 | the batch loop commits exactly `ExpireStale`, touches nothing but the records, and reports the number of selected records |
| Expiry.ExpiryIdempotent | src/functions/cloudFunctions.js:11 | a second run selects nothing and changes nothing |
| Expiry.ExpiredNotOpen | src/functions/cloudFunctions.js:11 | expiry removes exactly the stale waiting records from what a search can find |
| LocalVideo.ControlFor | src/components/LocalVideo/LocalVideo.jsx:167-186 | disconnected shows search, searching shows cancel, and every other status, waiting included, shows End Call |
| LocalVideo.SearchDisabled | src/components/LocalVideo/LocalVideo.jsx:171 | searching always disables the button; not searching with no error never does |
| LocalVideo.MediaError | src/components/LocalVideo/LocalVideo.jsx:58 | the shown error is the fixed camera/microphone prefix followed by the browser's whole message |
| LocalVideo.MediaErrorDisablesSearch | src/components/LocalVideo/LocalVideo.jsx:58 | whatever the browser's message, a media-access error disables the search button |
| LocalVideo.ConnectionMonitorTick | src/components/LocalVideo/LocalVideo.jsx:117-134 | a tick ends the call exactly when the session has a connection in state disconnected, failed or closed; ending runs `handleEndCall` with `cleanup`, leaving the session cleared, the tracks ended, the current record deleted when possible and the component disconnected with no id or error; otherwise nothing changes; after any tick the condition is false, so one call is never ended twice |
| LocalVideo.Component.constructor | src/components/LocalVideo/LocalVideo.jsx:15-18 | the component starts disconnected, not searching, with no call id and no error |
| LocalVideo.Component.MediaReady | src/components/LocalVideo/LocalVideo.jsx:55 | media access clears the error and nothing else |
| LocalVideo.Component.MediaFailed | src/components/LocalVideo/LocalVideo.jsx:58 | a media failure shows the camera/microphone error and nothing else |
| LocalVideo.Component.BeginSearch | src/components/LocalVideo/LocalVideo.jsx:63-66 | a search starts searching with no error and shows the cancel button |
| LocalVideo.Component.FinishSearch | src/components/LocalVideo/LocalVideo.jsx:72-88 | success stores the id and ends connected as callee or waiting otherwise; failure ends disconnected with "Failed to find partner: " and the message; searching is over either way |
| LocalVideo.Component.BeginEndCall | src/components/LocalVideo/LocalVideo.jsx:94 | ending a call passes through disconnecting |
| LocalVideo.Component.FinishEndCall | src/components/LocalVideo/LocalVideo.jsx:96-114 | both outcomes end disconnected with the search button; success clears the id and the error; failure shows "Failed to end call properly: " and the message |
| LocalVideo.Component.BeginCancelSearch | src/components/LocalVideo/LocalVideo.jsx:139 | cancelling passes through canceling |
| LocalVideo.Component.FinishCancelSearch | src/components/LocalVideo/LocalVideo.jsx:141-153 | both outcomes end disconnected; success ends searching and clears the id; failure shows "Failed to cancel search: " and the message and keeps both |
| RemoteVideo.Keys | src/components/RemoteVideo/RemoteVideo.jsx:33 | the key set holds exactly the (kind, id) pairs of the tracks: every track's key is in it, and every key in it comes from some track |
| RemoteVideo.NeedsUpdate | src/components/RemoteVideo/RemoteVideo.jsx:28-35 | no update is needed exactly when there is a source, the counts agree, and every shown track's (kind, id) is among the new stream's keys |
| RemoteVideo.RemoteGone | src/components/RemoteVideo/RemoteVideo.jsx:87-92 | the overlay shows whenever the engine would tear down, and also on ICE disconnected, which the engine waits out; it never stays hidden on a closed connection |
| RemoteVideo.SameTracksNoUpdate | src/components/RemoteVideo/RemoteVideo.jsx:28-35 | offering the tracks already shown never needs an update, so updating twice reassigns at most once |
| RemoteVideo.KeysCard | src/components/RemoteVideo/RemoteVideo.jsx:30-35 | tracks with distinct keys have as many keys as tracks |
| RemoteVideo.KeysCardBound | src/components/RemoteVideo/RemoteVideo.jsx:30-35 | a track list has no more keys than tracks |
| RemoteVideo.NoUpdateIffSameKeys | src/components/RemoteVideo/RemoteVideo.jsx:28-35 | for shown tracks with distinct keys and equal counts, no update is needed exactly when both streams have the same kinds and ids |
| RemoteVideo.Component.constructor | src/components/RemoteVideo/RemoteVideo.jsx:6-9 | the component starts with no source, no stream, no error and not disconnected |
| RemoteVideo.Component.UpdateVideoStream | src/components/RemoteVideo/RemoteVideo.jsx:12-63 | a null or empty stream only clears `hasStream`; otherwise `srcObject` is reassigned exactly when the element is attached and `needsUpdate` holds, which marks the stream present and clears the error; the current source object is never reassigned |
| RemoteVideo.Component.MonitorTick | src/components/RemoteVideo/RemoteVideo.jsx:81-100 | with a connection, the overlay shows exactly when `Ends` holds for the connection state or `IceEnds` for the ICE state; with none, it is unchanged |
| RemoteVideo.Component.Mount | src/components/RemoteVideo/RemoteVideo.jsx:65-78 | mounting registers the renderer in the session; an existing non-empty remote stream is reassigned exactly when the element is attached and `needsUpdate` holds, and otherwise the source, flag and error stay; an empty one only clears `hasStream`; with none, nothing but the registration changes |
| RemoteVideo.Component.Unmount | src/components/RemoteVideo/RemoteVideo.jsx:103-107 | unmounting resets `onStreamUpdate` to null and nothing else in the session |
| RemoteVideo.DeliverTrackEvent | src/components/RemoteVideo/RemoteVideo.jsx:69-72 | a first track event puts the session's remote stream on the element; a later one grows the same object without reassigning it |
| TextSender.TrimStart | src/components/textSender/textSender.jsx:10 | removes exactly the leading JavaScript white space: a suffix whose first character is not white space |
| TextSender.TrimEnd | src/components/textSender/textSender.jsx:10 | removes exactly the trailing white space: a prefix whose last character is not white space |
| TextSender.Trim | src/components/textSender/textSender.jsx:10 | `trim()` removes a blank prefix and a blank suffix and keeps the middle slice of the message, which neither starts nor ends with white space |
| TextSender.TrimEmptyIffBlank | src/components/textSender/textSender.jsx:10 | `message.trim()` is empty exactly when every character is white space |
| TextSender.RemoveAll | src/components/textSender/textSender.jsx:15 | the filtered list has no entry equal to the text and keeps every other entry with its multiplicity |
| TextSender.RemoveAllAppend | src/components/textSender/textSender.jsx:15 | filtering a concatenation filters each part, so kept entries keep their order |
| TextSender.RemoveAllAbsent | src/components/textSender/textSender.jsx:15 | a list without the text is left as it is |
| TextSender.Component.constructor | src/components/textSender/textSender.jsx:5-6 | empty input and no messages |
| TextSender.Component.Type | src/components/textSender/textSender.jsx:33 | typing sets the input and leaves the messages |
| TextSender.Component.HandleSubmit | src/components/textSender/textSender.jsx:8-18 | a blank message changes nothing and schedules nothing; otherwise it is appended untrimmed at the end, the input is cleared, and its removal is scheduled |
| TextSender.Component.ExpireMessage | src/components/textSender/textSender.jsx:14-16 | the timer removes every entry equal to the submitted text, later duplicates included, and keeps the rest in order |

## Left out

- Anonymous sign-in at module load (`webRTCGlobal.js:11-18`) and the re-sign-in inside `cleanup` (438-441) are network I/O. The user id is a parameter and is assumed to be signed in.
- `getTwilioIceServers` and its fallback configuration (`webRTCGlobal.js:54-88`) are network I/O. Both branches install the same abstract connection.
- The Twilio token function in `src/functions/index.js` is HTTP and CORS handling. It is not part of this model.
- `getUserMedia`, `createOffer`, `createAnswer`, `restartIce`, SDP contents and candidate-pair inspection are browser internals. Their results are parameters, and a restart is counted in `iceRestarts`.
- The WebRTC signalling-state machine is left out. `setRemoteDescription` and `setLocalDescription` always succeed in the model, and a description set in the wrong state is not rejected.
- `track.enabled = true` (`webRTCGlobal.js:260-263`) and the video element's `load`/`play` (`RemoteVideo.jsx:49-56`) are media playback, not state the model tracks. The asynchronous "Error playing video" message is left out with them.
- The un-awaited `initializePeerConnection()` calls (`webRTCGlobal.js:251, 289, 368`, `LocalVideo.jsx:32`) are timing. Whether the connection exists when an operation reaches it is decided by the state the operation starts in.
- `LocalVideo.jsx` installs its own `onconnectionstatechange` on whatever connection exists at that moment (35-47). Which handler is attached when is timing, so only the engine's handler is modelled.
- Timers are left out: the `setInterval` monitors, the `setTimeout` re-initialisation after ending a call, and the 3-second message timer. Each of their bodies is a separate step (`ConnectionMonitorTick`, `MonitorTick`, `ExpireMessage`); the re-initialisation after a monitor ends a call is not modelled.
- The `[hasStream]` dependency that re-runs the remote-video effect is timing. `Mount` and `Unmount` are the effect and its cleanup.
- The order of snapshot delivery and interleavings between the two users are left to the caller of the delivery methods.
- Store failures other than `deleteDoc` are not modelled. The query, `setDoc`, `updateDoc`, `getDoc` and `addDoc` always succeed. An un-awaited `addDoc` that fails could not be observed anyway.
- Logging and candidate-type diagnostics (`webRTCGlobal.js:115-133, 176-193, 208-222`) are left out. So is the `console.log` of the expiry count, which is returned as `count` instead.
- Expiry.Stale: `oneDayAgo` is one calendar day in local time. The model uses 86 400 000 ms, which differs on days when the clock changes.
- Store.StrLess: the store sorts strings by UTF-8 bytes. The model compares Dafny characters, which order the same way for strings of Unicode scalar values.
- `Navbar.jsx`, `App.jsx`, `Chat.jsx`, `VideoChat.jsx` and `usePageTitle.js` are layout, routing and DOM. They are not part of this model.
- The handlers of `LocalVideo.jsx` are split at their `await`s into `Begin` and `Finish` steps. The awaited engine call's outcome is a parameter of the `Finish` step, so the component does not call the engine itself.
- The re-initialisation guard in `handleSearch` (`LocalVideo.jsx:68-70`) runs media acquisition, which the engine's `SetupMediaSources` already models.
