/**
 * The call hook of src/hooks/use-webrtc-call.ts as a class whose methods are the
 * events the hook reacts to: the signalling messages that arrive on the
 * appointment's channel (offer, answer, ICE candidate, call end), the user's
 * actions (start, answer, end), and the callbacks of the one peer connection
 * (connection-state change, remote track, locally gathered candidate) and of the
 * timers (answer timeout, receiver sweep, quality check).
 *
 * Each `await` is modelled by an outcome parameter: the caller says whether the
 * browser accepted a description, granted the camera or sent a message. Calls
 * made on a peer connection are recorded in `log`, so that ordering and
 * exactly-once properties can be stated; sent messages are appended to `outbox`.
 */
module WebRtcCall {
  import opened Wrappers
  import opened Text
  import opened Rtc
  import opened WebRtcHelpers

  /** The hook's state record (the camera list and selected camera are not modelled). */
  datatype CallState = CallState(
    localStream: Option<MediaStream>,
    remoteStream: Option<MediaStream>,
    isCallActive: bool,
    isCalling: bool,
    isAnswering: bool,
    error: Option<CallError>,
    callDuration: nat,
    quality: Quality)

  /** The record the hook starts from and `endCall` returns to. */
  const Idle := CallState(None, None, false, false, false, None, 0, Unknown)

  /**
   * The pending timers: the 30 s answer timeout, the 1 s duration interval, the
   * 5 s quality interval, whether a call start time is recorded, and how many
   * one-shot receiver sweeps are scheduled.
   */
  datatype Timers = Timers(answerTimeout: bool, duration: bool, qualityCheck: bool, started: bool, sweeps: nat)

  /** `stopCallTimers`: both intervals cleared and the start time forgotten; the rest stays. */
  function StopCallTimers(t: Timers): (r: Timers)
    ensures !r.duration && !r.qualityCheck && !r.started
    ensures r.answerTimeout == t.answerTimeout && r.sweeps == t.sweeps
  {
    t.(duration := false, qualityCheck := false, started := false)
  }

  /** A message the hook broadcasts on the appointment's channel. */
  datatype Signal = OfferMsg(sdp: string) | AnswerMsg(sdp: string) | CandidateMsg(cand: IceCandidate) | CallEndMsg

  /** The payload of a received `ice-candidate` message. */
  datatype CandidatePayload = CandidatePayload(candidate: Option<string>, sdpMLineIndex: Option<nat>, sdpMid: Option<string>)

  /** `payload.candidate` is truthy: present and not empty. */
  predicate HasCandidate(p: CandidatePayload) {
    p.candidate.Some? && p.candidate.value != ""
  }

  function ToCandidate(p: CandidatePayload): IceCandidate
    requires HasCandidate(p)
  {
    IceCandidate(p.candidate.value, p.sdpMLineIndex, p.sdpMid)
  }

  /** What the camera and microphone request resolved to. */
  datatype MediaResult = Granted(stream: MediaStream) | Refused(error: MediaError)

  const NotReady := "Signaling channel not ready. Please wait a moment and try again."
  const SendOfferFailed := "Failed to send call offer. Please check your connection and try again."
  const SendAnswerFailed := "Failed to send call answer. Please check your connection and try again."
  const NoOfferYet := "No call offer received yet. Please wait for the other person to start the call."

  /** Why starting or answering a call failed: the error the `try` block threw. */
  datatype Reason =
    | ChannelNotReady
    | MediaRefused(error: MediaError, loc: Location)
    | Rejected(message: string)
    | OfferNotSent
    | AnswerNotSent
    | NoOffer

  /**
   * The errors the hook records in its state record. The record keeps the
   * error as the reason that produced it; `ErrorText` is the string the hook
   * stores for it.
   */
  datatype CallError =
    | StartFailed(reason: Reason)
    | AnswerFailed(reason: Reason)
    | OfferNotApplied
    | AnswerNotApplied
    | ConnectionFailed
    | ChannelFailed
    | NotAnswered

  /** The `message` of the error thrown for `r`. */
  function ReasonText(r: Reason): string {
    match r
    case ChannelNotReady => NotReady
    case MediaRefused(e, loc) => MediaMessageText(MediaFailureMessage(ModernApiFailure(e, loc)))
    case Rejected(m) => m
    case OfferNotSent => SendOfferFailed
    case AnswerNotSent => SendAnswerFailed
    case NoOffer => NoOfferYet
  }

  const StartPrefix := "Failed to start call: "
  const AnswerPrefix := "Failed to answer call: "

  /** The text of `error` in the hook's state record. */
  function ErrorText(e: CallError): string {
    match e
    case StartFailed(r) => StartPrefix + ReasonText(r)
    case AnswerFailed(r) => AnswerPrefix + ReasonText(r)
    case OfferNotApplied => "Failed to receive call offer"
    case AnswerNotApplied => "Failed to process answer"
    case ConnectionFailed => "Connection failed"
    case ChannelFailed => "Failed to establish signaling channel"
    case NotAnswered => "Call not answered. " + "Make sure the other person has opened the call dialog."
  }

  /**
   * The stored text tells which step failed: it starts with the start prefix
   * exactly for a failed start and with the answer prefix exactly for a failed
   * answer, and after the prefix it carries the thrown message unchanged.
   */
  lemma ErrorTextNamesStep(e: CallError)
    ensures StartsWith(ErrorText(e), StartPrefix) <==> e.StartFailed?
    ensures StartsWith(ErrorText(e), AnswerPrefix) <==> e.AnswerFailed?
    ensures e.StartFailed? ==> ErrorText(e)[|StartPrefix|..] == ReasonText(e.reason)
    ensures e.AnswerFailed? ==> ErrorText(e)[|AnswerPrefix|..] == ReasonText(e.reason)
  {
    var t := ErrorText(e);
    if e.StartFailed? {
      assert t[..|StartPrefix|] == StartPrefix;
      assert t[10] == 's' != AnswerPrefix[10];
    } else if e.AnswerFailed? {
      assert t[..|AnswerPrefix|] == AnswerPrefix;
      assert t[10] == 'a' != StartPrefix[10];
    } else {
      match e
      case OfferNotApplied => assert t[10] == 'r';
      case AnswerNotApplied => assert t[10] == 'p';
      case ConnectionFailed => assert t[0] == 'C';
      case ChannelFailed => assert t[10] == 'e';
      case NotAnswered =>
        assert t[0] == 'C';
    }
  }

  /** A connection that `getOrCreatePeerConnection` reuses: present and not closed. */
  predicate Reusable(p: Option<Peer>) {
    p.Some? && p.value.signaling != Closed
  }

  /** The `close()` call made on a connection that is dropped, if there is one. */
  function CloseCalls(p: Option<Peer>): seq<BrowserCall> {
    if p.Some? then [Close(p.value.id)] else []
  }

  /** The calls `getOrCreatePeerConnection` makes: the `close()` of a held connection it replaces. */
  function ReplaceCalls(p: Option<Peer>): seq<BrowserCall> {
    if Reusable(p) then [] else CloseCalls(p)
  }

  /** The connection `getOrCreatePeerConnection` ends up holding, given the held one and the next identity. */
  function Held(p: Option<Peer>, next: nat): (h: Peer)
    ensures Reusable(p) ==> h == p.value
    ensures !Reusable(p) ==> h == NewPeer(next)
  {
    if Reusable(p) then p.value else NewPeer(next)
  }

  /**
   * A connection that has accepted the remote offer `d`: it holds the offer and
   * waits to answer; a local offer it held was rolled back and is gone.
   */
  function WithRemoteOffer(p: Peer, d: Description): (q: Peer)
    ensures q.id == p.id && q.connection == p.connection
    ensures q.signaling == HaveRemoteOffer && q.remote == Some(d)
    ensures q.local == (if p.signaling == HaveLocalOffer then None else p.local)
  {
    p.(signaling := HaveRemoteOffer, remote := Some(d), local := if p.signaling == HaveLocalOffer then None else p.local)
  }

  /** The stream, if any, is one the hook created with a number below `n`. */
  predicate CreatedBelow(s: Option<MediaStream>, n: nat) {
    s.Some? && s.value.id.CreatedStream? ==> s.value.id.n < n
  }

  /** A remote track merged into an existing stream's track list: appended, then every track enabled. */
  function MergeTrack(existing: seq<Track>, t: Track): (r: seq<Track>)
    ensures |r| == |existing| + 1 && r[|existing|] == t.(enabled := true)
    ensures forall k :: 0 <= k < |r| ==> r[k].enabled
  {
    EnableAll(existing + [t])
  }

  /**
   * Merging a track that is not in the list yet adds exactly its id to the ids
   * present, so a list without repeated ids stays without repeats.
   */
  lemma MergeTrackIds(existing: seq<Track>, t: Track)
    requires !HasTrack(existing, t.id)
    ensures forall id :: HasTrack(MergeTrack(existing, t), id) <==> HasTrack(existing, id) || id == t.id
    ensures DistinctIds(existing) ==> DistinctIds(MergeTrack(existing, t))
  {
    var r := MergeTrack(existing, t);
    assert r[|existing|].id == t.id;
    forall id ensures HasTrack(r, id) <==> HasTrack(existing, id) || id == t.id {
      if HasTrack(existing, id) {
        var k :| 0 <= k < |existing| && existing[k].id == id;
        assert r[k].id == id;
      }
      if HasTrack(r, id) {
        var k :| 0 <= k < |r| && r[k].id == id;
        if k < |existing| {
          assert existing[k].id == id;
        }
      }
    }
    if DistinctIds(existing) {
      forall j, k | 0 <= j < k < |r| ensures r[j].id != r[k].id {
        if k == |existing| {
          assert existing[j].id == r[j].id;
        } else {
          assert existing[j].id == r[j].id && existing[k].id == r[k].id;
        }
      }
    }
  }

  /** The track list of a stream, if there is one. */
  function Tracks(s: Option<MediaStream>): Option<seq<Track>> {
    if s.Some? then Some(s.value.tracks) else None
  }

  /**
   * The `ontrack` update of the remote stream's track list, given the list of
   * the existing remote stream (if any), the arriving track and the streams it
   * came with; `None` when the track is already in the existing stream and
   * nothing changes. Every track of the result is enabled.
   */
  function UpdatedTracks(existing: Option<seq<Track>>, track: Track, streams: seq<MediaStream>): Option<seq<Track>> {
    if |streams| > 0 then Some(EnableAll(streams[0].tracks))
    else if existing.None? then Some([track.(enabled := true)])
    else if HasTrack(existing.value, track.id) then None
    else Some(MergeTrack(existing.value, track.(enabled := true)))
  }

  /**
   * A track that came alone ends up in the remote stream exactly once: it is
   * skipped when present, otherwise appended, so a stream without repeated ids
   * keeps none. A track that came with a stream makes that stream's track list
   * the remote one, with the same ids. Every track of an updated stream is
   * enabled.
   */
  lemma UpdatedTracksSpec(existing: Option<seq<Track>>, track: Track, streams: seq<MediaStream>)
    requires existing.Some? ==> DistinctIds(existing.value)
    ensures var r := UpdatedTracks(existing, track, streams);
      && (r.None? <==> |streams| == 0 && existing.Some? && HasTrack(existing.value, track.id))
      && (r.Some? ==> forall k :: 0 <= k < |r.value| ==> r.value[k].enabled)
      && (r.Some? && |streams| == 0 ==> HasTrack(r.value, track.id) && DistinctIds(r.value))
      && (r.Some? && |streams| == 0 && existing.Some? ==>
            forall id :: HasTrack(r.value, id) <==> HasTrack(existing.value, id) || id == track.id)
      && (|streams| > 0 ==> r.Some? && forall id :: HasTrack(r.value, id) <==> HasTrack(streams[0].tracks, id))
      && (|streams| > 0 && DistinctIds(streams[0].tracks) ==> DistinctIds(r.value))
  {
    var r := UpdatedTracks(existing, track, streams);
    if |streams| > 0 {
      forall id ensures HasTrack(r.value, id) <==> HasTrack(streams[0].tracks, id) {
        EnableAllKeepsIds(streams[0].tracks, id);
      }
      EnableAllKeepsIds(streams[0].tracks, track.id);
    }
    if |streams| == 0 && r.Some? {
      if existing.Some? {
        MergeTrackIds(existing.value, track.(enabled := true));
      } else {
        assert r.value[0].id == track.id;
      }
    }
  }

  /**
   * One receiver looked at by the sweep that runs a second after the connection
   * comes up: a track not yet in the remote stream is added; with no remote
   * stream, the track starts one.
   */
  function SweepStep(current: Option<seq<Track>>, receiver: Option<Track>): Option<seq<Track>> {
    match receiver
    case None => current
    case Some(t) =>
      if current.None? then Some([t])
      else if HasTrack(current.value, t.id) then current
      else Some(current.value + [t])
  }

  /** The remote stream's track list after the sweep has looked at `receivers` in order. */
  function SweepTracks(current: Option<seq<Track>>, receivers: seq<Option<Track>>): Option<seq<Track>>
    decreases |receivers|
  {
    if receivers == [] then current
    else SweepStep(SweepTracks(current, receivers[..|receivers| - 1]), receivers[|receivers| - 1])
  }

  /**
   * After a sweep, every receiver's track is in the remote stream and the stream
   * holds no track twice (when it held none twice before).
   */
  lemma {:induction false} SweepCoversReceivers(current: Option<seq<Track>>, receivers: seq<Option<Track>>)
    requires current.Some? ==> DistinctIds(current.value)
    ensures var r := SweepTracks(current, receivers);
      && (r.Some? ==> DistinctIds(r.value))
      && (current.Some? ==> r.Some? && forall id :: HasTrack(current.value, id) ==> HasTrack(r.value, id))
      && (forall k :: 0 <= k < |receivers| && receivers[k].Some? ==> r.Some? && HasTrack(r.value, receivers[k].value.id))
    decreases |receivers|
  {
    if receivers != [] {
      var init := receivers[..|receivers| - 1];
      var last := receivers[|receivers| - 1];
      SweepCoversReceivers(current, init);
      var before := SweepTracks(current, init);
      var r := SweepStep(before, last);
      assert r == SweepTracks(current, receivers);
      if last.Some? && before.Some? && !HasTrack(before.value, last.value.id) {
        var grown := before.value + [last.value];
        assert grown[|before.value|].id == last.value.id;
        forall id | HasTrack(before.value, id) ensures HasTrack(grown, id) {
          var k :| 0 <= k < |before.value| && before.value[k].id == id;
          assert grown[k].id == id;
        }
      }
      if last.Some? && before.None? {
        assert [last.value][0].id == last.value.id;
      }
      forall k | 0 <= k < |receivers| && receivers[k].Some? ensures r.Some? && HasTrack(r.value, receivers[k].value.id) {
        if k < |receivers| - 1 {
          assert receivers[k] == init[k];
          var id := receivers[k].value.id;
          if last.Some? && before.Some? && !HasTrack(before.value, last.value.id) {
            var j :| 0 <= j < |before.value| && before.value[j].id == id;
            assert r.value[j].id == id;
          }
        }
      }
    }
  }

  /**
   * Why `startCall` fails, in the order the steps run: the channel, the camera
   * and microphone, the local offer, the channel again just before the
   * broadcast, the broadcast.
   */
  function StartFailure(channelReady: bool, media: MediaResult, loc: Location, canOffer: bool, browserError: string,
                        channelAtSend: bool, sent: bool): Option<Reason> {
    if !channelReady then Some(ChannelNotReady)
    else if media.Refused? then Some(MediaRefused(media.error, loc))
    else if !canOffer then Some(Rejected(browserError))
    else if !channelAtSend then Some(ChannelNotReady)
    else if !sent then Some(OfferNotSent)
    else None
  }

  /**
   * Why `answerCall` fails, in the order the steps run: the remote offer, the
   * camera and microphone, the local answer, the channel just before the
   * broadcast, the broadcast.
   */
  function AnswerFailure(hasOffer: bool, media: MediaResult, loc: Location, canAnswer: bool, browserError: string,
                         channelAtSend: bool, sent: bool): Option<Reason> {
    if !hasOffer then Some(NoOffer)
    else if media.Refused? then Some(MediaRefused(media.error, loc))
    else if !canAnswer then Some(Rejected(browserError))
    else if !channelAtSend then Some(ChannelNotReady)
    else if !sent then Some(AnswerNotSent)
    else None
  }

  class CallSession {
    /** `peerConnectionRef` */
    var pc: Option<Peer>
    /** `iceCandidatesRef`: candidates kept until a remote description is applied */
    var pending: seq<IceCandidate>
    /** `remoteDescriptionSetRef` (written by the hook, never read by it) */
    var remoteDescriptionSet: bool
    /** `remoteStreamRef` */
    var remoteStreamRef: Option<MediaStream>
    /** `signalChannelRef.current` is set: the channel subscribed and was not closed */
    var channelReady: bool
    /**
     * The channel-ready promises are numbered in the order the channel effect
     * creates them: `promise` is the one `channelReadyRef` holds now, and
     * `resolved` the ones `SUBSCRIBED` has resolved.
     */
    var promise: nat
    var resolved: set<nat>
    /** the promise each suspended `startCall` awaits, one entry per call */
    var waiting: multiset<nat>
    /** the `localStream` the channel effect last ran with: `endCall`, one of its dependencies, changes with it */
    var effectStream: Option<MediaStream>
    /** the reactive state record */
    var state: CallState
    var timers: Timers
    /** messages broadcast on the channel, oldest first */
    var outbox: seq<Signal>
    /** identities given to the next connection and the next stream the hook creates */
    var nextPeer: nat
    var nextStream: nat
    /** calls made on peer connections, oldest first */
    var log: seq<BrowserCall>
    /** the connections created and not yet closed */
    ghost var live: set<nat>

    ghost predicate Valid()
      reads this
    {
      && live == (if Reusable(pc) then {pc.value.id} else {})
      && (pc.Some? ==> pc.value.id < nextPeer)
      // only connections the hook created are closed, and the open one has not been
      && (forall id: nat :: Close(id) in log ==> id < nextPeer)
      && (forall id: nat :: id in live ==> Close(id) !in log)
      // every other connection the hook created has been closed
      && (forall id: nat :: id < nextPeer && id !in live && !(pc.Some? && pc.value.id == id) ==> Close(id) in log)
      && CreatedBelow(state.remoteStream, nextStream)
      && CreatedBelow(remoteStreamRef, nextStream)
    }

    /** Every promise resolved or waited on is one the channel effect has created. */
    ghost predicate PromisesValid()
      reads this`promise, this`resolved, this`waiting
    {
      && (forall n :: n in resolved ==> n <= promise)
      && (forall n :: n in waiting ==> n <= promise)
    }

    constructor ()
      ensures Valid() && PromisesValid()
      ensures pc.None? && pending == [] && !remoteDescriptionSet && remoteStreamRef.None?
      ensures !channelReady && promise == 0 && resolved == {} && waiting == multiset{} && effectStream.None?
      ensures state == Idle && timers == Timers(false, false, false, false, 0)
      ensures nextPeer == 0 && nextStream == 0
      ensures outbox == [] && log == [] && live == {}
    {
      pc := None;
      pending := [];
      remoteDescriptionSet := false;
      remoteStreamRef := None;
      channelReady := false;
      promise := 0;
      resolved := {};
      waiting := multiset{};
      effectStream := None;
      state := Idle;
      timers := Timers(false, false, false, false, 0);
      outbox := [];
      nextPeer := 0;
      nextStream := 0;
      log := [];
      live := {};
    }

    // -------------------------------------------------------------------------
    // The connection
    // -------------------------------------------------------------------------

    /**
     * `getOrCreatePeerConnection`: the held connection when it is open;
     * otherwise the old one (if any) is closed and dropped and a new one is
     * created and held. Afterwards the held connection is the returned one and
     * no other connection is open.
     */
    method GetOrCreatePeerConnection() returns (id: nat)
      requires Valid()
      modifies this`pc, this`nextPeer, this`log, this`live
      ensures Valid()
      ensures pc == Some(Held(old(pc), old(nextPeer))) && id == pc.value.id && Reusable(pc) && live == {id}
      ensures Reusable(old(pc)) <==> pc == old(pc)
      ensures log == old(log) + ReplaceCalls(old(pc))
      ensures Reusable(old(pc)) ==> nextPeer == old(nextPeer) && live == old(live)
      ensures !Reusable(old(pc)) ==> id == old(nextPeer) && pc == Some(NewPeer(id)) && nextPeer == id + 1
    {
      if pc.Some? && pc.value.signaling != Closed {
        assert log == old(log) + [];
        return pc.value.id;
      }
      if pc.Some? {
        log := log + [Close(pc.value.id)];
        live := live - {pc.value.id};
        pc := None;
      }
      id := nextPeer;
      nextPeer := nextPeer + 1;
      pc := Some(NewPeer(id));
      live := live + {id};
    }

    /**
     * The loop that hands every buffered candidate to `addIceCandidate` on the
     * held connection, in buffer order (a failing call is caught and skipped),
     * and then empties the buffer.
     */
    method DrainPending(id: nat)
      modifies this`log, this`pending
      ensures log == old(log) + AddIceAll(id, old(pending))
      ensures pending == []
    {
      var buffered := pending;
      var i := 0;
      while i < |buffered|
        invariant 0 <= i <= |buffered|
        invariant log == old(log) + AddIceAll(id, buffered[..i])
      {
        AddIceAllAppend(id, buffered[..i], [buffered[i]]);
        assert buffered[..i + 1] == buffered[..i] + [buffered[i]];
        log := log + [AddIce(id, buffered[i])];
        i := i + 1;
      }
      assert buffered[..i] == buffered;
      pending := [];
    }

    // -------------------------------------------------------------------------
    // Received signalling messages
    // -------------------------------------------------------------------------

    /**
     * An `offer` message. A connection that already has a remote description
     * ignores it. Otherwise the candidate buffer is emptied first (candidates
     * that came before the offer are dropped), the offer is applied, and on
     * success the candidates buffered while it was being applied (`arrived`) are
     * handed over and the hook is ready to answer. The browser rejects the offer
     * when it does not accept it (`accepted`) or when the connection's state
     * admits no remote offer. A local offer of the hook's own, placed by a
     * `startCall` on this side, is rolled back in favour of the remote one:
     * with no tie-break, both sides of a simultaneous start end up answering.
     */
    method OnOffer(sdp: string, accepted: bool, arrived: seq<IceCandidate>)
      requires Valid()
      modifies this`pc, this`nextPeer, this`log, this`live, this`pending, this`remoteDescriptionSet, this`state
      ensures Valid()
      ensures Reusable(old(pc)) && old(pc).value.remote.Some? ==>
        pc == old(pc) && pending == old(pending) && remoteDescriptionSet == old(remoteDescriptionSet)
        && state == old(state) && log == old(log) && live == old(live) && nextPeer == old(nextPeer)
      ensures !(Reusable(old(pc)) && old(pc).value.remote.Some?) ==>
        var held, desc := Held(old(pc), old(nextPeer)), Description(Offer, sdp);
        var ok := accepted && AfterRemote(held.signaling, Offer).Some?;
        && log == old(log) + ReplaceCalls(old(pc)) + [SetRemote(held.id, desc)]
                  + (if ok then AddIceAll(held.id, arrived) else [])
        && pc == Some(if ok then WithRemoteOffer(held, desc) else held)
        && pending == (if ok then [] else arrived)
        && remoteDescriptionSet == ok
        && state == (if ok then old(state).(isAnswering := true) else old(state).(error := Some(OfferNotApplied)))
    {
      var id := GetOrCreatePeerConnection();
      if pc.value.remote.Some? {
        return;
      }
      AcceptOffer(sdp, accepted, arrived);
    }

    /**
     * The part of the `offer` handler that runs on a held connection without a
     * remote description: the buffer is emptied and the flag cleared, the offer
     * is applied, and on success the candidates that arrived meanwhile are
     * handed over.
     */
    method AcceptOffer(sdp: string, accepted: bool, arrived: seq<IceCandidate>)
      requires Valid() && Reusable(pc) && pc.value.remote.None?
      modifies this`pc, this`pending, this`remoteDescriptionSet, this`log, this`state
      ensures Valid()
      ensures var held, desc := old(pc).value, Description(Offer, sdp);
        var ok := accepted && AfterRemote(held.signaling, Offer).Some?;
        && log == old(log) + [SetRemote(held.id, desc)] + (if ok then AddIceAll(held.id, arrived) else [])
        && pc == Some(if ok then WithRemoteOffer(held, desc) else held)
        && pending == (if ok then [] else arrived)
        && remoteDescriptionSet == ok
        && state == (if ok then old(state).(isAnswering := true) else old(state).(error := Some(OfferNotApplied)))
    {
      var id := pc.value.id;
      pending := [];
      remoteDescriptionSet := false;
      var desc := Description(Offer, sdp);
      log := log + [SetRemote(id, desc)];
      ghost var applied := log;
      // the candidates that arrived while the offer was being applied
      pending := arrived;
      var next := AfterRemote(pc.value.signaling, Offer);
      if accepted && next.Some? {
        pc := Some(pc.value.(signaling := next.value, remote := Some(desc),
                             local := if pc.value.signaling == HaveLocalOffer then None else pc.value.local));
        remoteDescriptionSet := true;
        DrainPending(id);
        assert log == applied + AddIceAll(id, arrived);
        state := state.(isAnswering := true);
      } else {
        assert log == applied + [];
        state := state.(error := Some(OfferNotApplied));
      }
    }

    /**
     * An `answer` message. It is applied only when a connection is held and is in
     * `have-local-offer`; otherwise nothing changes. Once applied, the buffered
     * candidates are handed over in order and the buffer is emptied.
     */
    method OnAnswer(sdp: string, accepted: bool)
      requires Valid()
      modifies this`pc, this`log, this`pending, this`remoteDescriptionSet, this`state
      ensures Valid()
      ensures old(pc).None? || old(pc).value.signaling != HaveLocalOffer ==>
        pc == old(pc) && pending == old(pending) && remoteDescriptionSet == old(remoteDescriptionSet)
        && state == old(state) && log == old(log)
      ensures old(pc).Some? && old(pc).value.signaling == HaveLocalOffer ==>
        var desc := Description(Answer, sdp);
        var id := old(pc).value.id;
        && (accepted ==>
              && pc == Some(old(pc).value.(signaling := Stable, remote := Some(desc)))
              && log == old(log) + [SetRemote(id, desc)] + AddIceAll(id, old(pending))
              && pending == [] && remoteDescriptionSet && state == old(state))
        && (!accepted ==>
              && pc == old(pc) && log == old(log) + [SetRemote(id, desc)]
              && pending == old(pending) && remoteDescriptionSet == old(remoteDescriptionSet)
              && state == old(state).(error := Some(AnswerNotApplied)))
    {
      if pc.None? {
        return;
      }
      if pc.value.signaling != HaveLocalOffer {
        return;
      }
      var id := pc.value.id;
      var desc := Description(Answer, sdp);
      log := log + [SetRemote(id, desc)];
      var next := AfterRemote(pc.value.signaling, Answer);
      if accepted && next.Some? {
        pc := Some(pc.value.(signaling := next.value, remote := Some(desc)));
        remoteDescriptionSet := true;
        DrainPending(id);
      } else {
        state := state.(error := Some(AnswerNotApplied));
      }
    }

    /**
     * An `ice-candidate` message. Without a held connection, or while the held
     * connection has no remote description, the candidate is appended to the
     * buffer. Otherwise it is handed to `addIceCandidate`; should that fail with
     * a message that mentions "remote", it is appended to the buffer after all.
     * An empty candidate, or one `RTCIceCandidate` cannot be built from, changes
     * nothing. The state record is never touched.
     */
    method OnCandidate(payload: CandidatePayload, addFailure: Option<string>)
      requires Valid()
      modifies this`pending, this`log
      ensures Valid()
      ensures var usable := HasCandidate(payload) && Constructible(ToCandidate(payload));
        var applied := usable && old(pc).Some? && old(pc).value.remote.Some?;
        && (applied ==> log == old(log) + [AddIce(old(pc).value.id, ToCandidate(payload))])
        && (!applied ==> log == old(log))
        && (!usable ==> pending == old(pending))
        && (usable && !applied ==> pending == old(pending) + [ToCandidate(payload)])
        && (applied ==> pending == old(pending) + (if addFailure.Some? && Contains(addFailure.value, "remote")
                                                   then [ToCandidate(payload)] else []))
    {
      if pc.None? {
        if HasCandidate(payload) {
          var c := ToCandidate(payload);
          if Constructible(c) {
            pending := pending + [c];
          }
        }
        return;
      }
      if HasCandidate(payload) {
        var c := ToCandidate(payload);
        if !Constructible(c) {
          return;
        }
        if pc.value.remote.Some? {
          log := log + [AddIce(pc.value.id, c)];
          if addFailure.Some? && Contains(addFailure.value, "remote") {
            pending := pending + [c];
          }
        } else {
          pending := pending + [c];
        }
      }
    }

    /** A `call-end` message: the hook ends its own side of the call, which broadcasts `call-end` again. */
    method OnCallEnd()
      requires Valid()
      modifies this`timers, this`pc, this`log, this`live, this`pending, this`remoteDescriptionSet, this`remoteStreamRef
      modifies this`outbox, this`state
      ensures Valid()
      ensures pc.None? && pending == [] && !remoteDescriptionSet && remoteStreamRef.None? && state == Idle
      ensures outbox == old(outbox) + (if channelReady then [CallEndMsg] else [])
    {
      EndCall();
    }

    /**
     * A change of the channel's subscription status. `SUBSCRIBED` sets the
     * channel and resolves the promise `channelReadyRef` holds now.
     */
    method OnChannelStatus(status: string)
      requires Valid() && PromisesValid()
      modifies this`channelReady, this`resolved, this`state
      ensures Valid() && PromisesValid()
      ensures status == "SUBSCRIBED" ==> channelReady && resolved == old(resolved) + {promise} && state == old(state)
      ensures status != "SUBSCRIBED" ==> resolved == old(resolved)
      ensures status == "CHANNEL_ERROR" ==> channelReady == old(channelReady) && state == old(state).(error := Some(ChannelFailed))
      ensures status == "CLOSED" ==> !channelReady && state == old(state)
      ensures status !in {"SUBSCRIBED", "CHANNEL_ERROR", "CLOSED"} ==> channelReady == old(channelReady) && state == old(state)
    {
      if status == "SUBSCRIBED" {
        channelReady := true;
        resolved := resolved + {promise};
      } else if status == "CHANNEL_ERROR" {
        state := state.(error := Some(ChannelFailed));
      } else if status == "CLOSED" {
        channelReady := false;
      }
    }

    /**
     * The channel effect runs again because `localStream` changed since its last
     * run (`endCall` depends on it): the cleanup removes the channel and clears
     * its reference, and the new run creates a new channel and a new,
     * unresolved channel-ready promise. The resolver of the old promise is
     * replaced, so a promise that had not resolved never will.
     */
    method ChannelReset()
      requires Valid() && PromisesValid() && state.localStream != effectStream
      modifies this`channelReady, this`promise, this`effectStream
      ensures Valid() && PromisesValid()
      ensures !channelReady && promise == old(promise) + 1 && promise !in resolved
      ensures effectStream == state.localStream
    {
      channelReady := false;
      promise := promise + 1;
      effectStream := state.localStream;
    }

    // -------------------------------------------------------------------------
    // User actions
    // -------------------------------------------------------------------------

    /**
     * `endCall`: timers stopped, the connection closed and dropped, the buffer
     * and the remote-stream reference cleared, `call-end` broadcast when the
     * channel is up, and the state record back to `Idle`. Receiver sweeps that
     * are already scheduled stay scheduled.
     */
    method EndCall()
      requires Valid()
      modifies this`timers, this`pc, this`log, this`live, this`pending, this`remoteDescriptionSet, this`remoteStreamRef
      modifies this`outbox, this`state
      ensures Valid()
      ensures pc.None? && live == {} && log == old(log) + CloseCalls(old(pc))
      ensures pending == [] && !remoteDescriptionSet && remoteStreamRef.None?
      ensures state == Idle
      ensures timers == StopCallTimers(old(timers)).(answerTimeout := false)
      ensures outbox == old(outbox) + (if channelReady then [CallEndMsg] else [])
    {
      timers := StopCallTimers(timers).(answerTimeout := false);
      ReleaseConnection();
      if channelReady {
        outbox := outbox + [CallEndMsg];
      }
      state := Idle;
    }

    /**
     * `createOffer`/`createAnswer` followed by `setLocalDescription` on the held
     * connection: `negotiated` says whether the browser produced the description,
     * and JSEP decides whether the connection accepts it in its state. On success
     * the connection moves on and holds it; otherwise it is unchanged.
     */
    method ApplyLocal(kind: SdpType, sdp: string, negotiated: bool) returns (ok: bool)
      requires Valid() && pc.Some?
      modifies this`pc
      ensures Valid()
      ensures ok <==> negotiated && AfterLocal(old(pc).value.signaling, kind).Some?
      ensures ok ==> pc == Some(old(pc).value.(signaling := AfterLocal(old(pc).value.signaling, kind).value,
                                               local := Some(Description(kind, sdp))))
      ensures !ok ==> pc == old(pc)
    {
      var next := AfterLocal(pc.value.signaling, kind);
      ok := negotiated && next.Some?;
      if ok {
        pc := Some(pc.value.(signaling := next.value, local := Some(Description(kind, sdp))));
      }
    }

    /**
     * The part of `endCall` that lets go of the connection: it is closed and
     * dropped, and the buffer, the remote-description flag and the remote-stream
     * reference are cleared.
     */
    method ReleaseConnection()
      requires Valid()
      modifies this`pc, this`log, this`live, this`pending, this`remoteDescriptionSet, this`remoteStreamRef
      ensures Valid()
      ensures pc.None? && live == {} && log == old(log) + CloseCalls(old(pc))
      ensures pending == [] && !remoteDescriptionSet && remoteStreamRef.None?
    {
      if pc.Some? {
        log := log + [Close(pc.value.id)];
        pc := None;
      }
      live := {};
      pending := [];
      remoteDescriptionSet := false;
      remoteStreamRef := None;
    }

    /**
     * `startCall`, up to the await on the channel-ready promise: `isCalling` is
     * set, the error cleared, and the call waits for the promise
     * `channelReadyRef` holds now. The rest runs in `ResumeStartCall` once that
     * promise has resolved; until the channel subscribes it does not, and the
     * call stays waiting with no error.
     */
    method StartCall()
      requires Valid() && PromisesValid()
      modifies this`state, this`waiting
      ensures Valid() && PromisesValid()
      ensures state == old(state).(isCalling := true, error := None)
      ensures waiting == old(waiting) + multiset{promise}
    {
      state := state.(isCalling := true, error := None);
      waiting := waiting + multiset{promise};
    }

    /**
     * `startCall`, from the point where the promise `awaited` it waits on has
     * resolved. It fails with "Signaling channel not ready" when the channel was
     * closed or torn down since; otherwise it clears the buffer, gets or creates
     * the connection, opens the camera and microphone, creates and applies a
     * local offer (which JSEP allows only in `stable` or `have-local-offer`),
     * checks the channel again, broadcasts the offer and arms the answer
     * timeout. `isCalling` is cleared at the end on success too, right
     * after the timer is armed, and the error is left as it stands. Every failure
     * clears `isCalling` and records "Failed to start call: <reason>".
     */
    method ResumeStartCall(awaited: nat, media: MediaResult, loc: Location, negotiated: bool, browserError: string,
                           offerSdp: string, channelAtSend: bool, sent: bool)
      requires Valid() && PromisesValid() && awaited in waiting && awaited in resolved
      modifies this`waiting, this`state, this`pending, this`remoteDescriptionSet, this`pc, this`nextPeer, this`log, this`live
      modifies this`outbox, this`timers
      ensures Valid() && PromisesValid()
      ensures waiting == old(waiting) - multiset{awaited}
      ensures !old(channelReady) ==>
        && state == old(state).(isCalling := false, error := Some(StartFailed(ChannelNotReady)))
        && pc == old(pc) && pending == old(pending) && remoteDescriptionSet == old(remoteDescriptionSet)
        && log == old(log) && live == old(live) && nextPeer == old(nextPeer)
        && outbox == old(outbox) && timers == old(timers)
      ensures old(channelReady) ==>
        && pending == [] && !remoteDescriptionSet && live == {Held(old(pc), old(nextPeer)).id}
        && log == old(log) + ReplaceCalls(old(pc))
        && state == old(state).(isCalling := false, localStream := state.localStream, error := state.error)
        && state.localStream == (if media.Granted? then Some(media.stream) else old(state.localStream))
      ensures old(channelReady) ==>
        var held := Held(old(pc), old(nextPeer));
        var offered := media.Granted? && negotiated && AfterLocal(held.signaling, Offer).Some?;
        pc == Some(if offered then held.(signaling := HaveLocalOffer, local := Some(Description(Offer, offerSdp))) else held)
      ensures old(channelReady) ==>
        var failure := StartFailure(true, media, loc, negotiated && AfterLocal(Held(old(pc), old(nextPeer)).signaling, Offer).Some?,
                                    browserError, channelAtSend, sent);
        && state.error == (if failure.Some? then Some(StartFailed(failure.value)) else old(state.error))
        && outbox == (if failure.None? then old(outbox) + [OfferMsg(offerSdp)] else old(outbox))
        && timers == old(timers).(answerTimeout := failure.None? || old(timers).answerTimeout)
    {
      waiting := waiting - multiset{awaited};
      assert PromisesValid();
      if !channelReady {
        // the `catch` block clears `isCalling` and shows the error
        state := state.(isCalling := false, error := Some(StartFailed(ChannelNotReady)));
      } else {
        var failure := OfferOnChannel(media, loc, negotiated, browserError, offerSdp, channelAtSend, sent);
      }
    }

    /**
     * The part of `startCall` that runs once the channel is known to be up: the
     * buffer is cleared, the connection is got or created, and the offer is
     * placed on it.
     */
    method OfferOnChannel(media: MediaResult, loc: Location, negotiated: bool, browserError: string,
                          offerSdp: string, channelAtSend: bool, sent: bool) returns (failure: Option<Reason>)
      requires Valid()
      modifies this`pending, this`remoteDescriptionSet, this`pc, this`nextPeer, this`log, this`live
      modifies this`state, this`outbox, this`timers
      ensures Valid()
      ensures pending == [] && !remoteDescriptionSet && live == {Held(old(pc), old(nextPeer)).id}
      ensures log == old(log) + ReplaceCalls(old(pc))
      ensures var held := Held(old(pc), old(nextPeer));
        var offered := media.Granted? && negotiated && AfterLocal(held.signaling, Offer).Some?;
        pc == Some(if offered then held.(signaling := HaveLocalOffer, local := Some(Description(Offer, offerSdp))) else held)
      ensures failure == StartFailure(true, media, loc, negotiated && AfterLocal(Held(old(pc), old(nextPeer)).signaling, Offer).Some?,
                                      browserError, channelAtSend, sent)
      ensures state == old(state).(isCalling := false,
                                   localStream := if media.Granted? then Some(media.stream) else old(state.localStream),
                                   error := if failure.Some? then Some(StartFailed(failure.value)) else old(state.error))
      ensures outbox == (if failure.None? then old(outbox) + [OfferMsg(offerSdp)] else old(outbox))
      ensures timers == old(timers).(answerTimeout := failure.None? || old(timers).answerTimeout)
    {
      pending := [];
      remoteDescriptionSet := false;
      var id := GetOrCreatePeerConnection();
      failure := PlaceOffer(media, loc, negotiated, browserError, offerSdp, channelAtSend, sent);
      // the success path and the `catch` block both clear `isCalling`
      state := state.(isCalling := false, error := if failure.Some? then Some(StartFailed(failure.value)) else state.error);
    }

    /**
     * The part of `startCall` that runs on the held connection: the camera and
     * microphone are opened and published, a local offer is created and applied,
     * the channel is checked again, the offer is broadcast, and the answer
     * timeout is armed. The first step that fails stops the rest and is returned
     * as the reason.
     *
     * Publishing the stream changes `localStream`, which makes the channel
     * effect tear the channel down and subscribe anew while this call awaits the
     * browser. `channelAtSend` says whether the channel reference is set at the
     * re-check: at once, or after the 500 ms wait the code makes when it is not.
     * Without it the call fails with "Signaling channel not ready". The later
     * "Signaling channel disconnected" check reads the same reference with no
     * await in between, so it cannot fail.
     */
    method PlaceOffer(media: MediaResult, loc: Location, negotiated: bool, browserError: string,
                      offerSdp: string, channelAtSend: bool, sent: bool) returns (failure: Option<Reason>)
      requires Valid() && Reusable(pc)
      modifies this`state, this`pc, this`outbox, this`timers
      ensures Valid()
      ensures failure == StartFailure(true, media, loc, negotiated && AfterLocal(old(pc).value.signaling, Offer).Some?,
                                      browserError, channelAtSend, sent)
      ensures pc == (if media.Granted? && negotiated && AfterLocal(old(pc).value.signaling, Offer).Some?
                     then Some(old(pc).value.(signaling := HaveLocalOffer, local := Some(Description(Offer, offerSdp))))
                     else old(pc))
      ensures state == old(state).(localStream := if media.Granted? then Some(media.stream) else old(state.localStream))
      ensures outbox == (if failure.None? then old(outbox) + [OfferMsg(offerSdp)] else old(outbox))
      ensures timers == old(timers).(answerTimeout := failure.None? || old(timers).answerTimeout)
    {
      if media.Refused? {
        return Some(MediaRefused(media.error, loc));
      }
      state := state.(localStream := Some(media.stream));
      var offered := ApplyLocal(Offer, offerSdp, negotiated);
      if !offered {
        return Some(Rejected(browserError));
      }
      if !channelAtSend {
        return Some(ChannelNotReady);
      }
      if !sent {
        return Some(OfferNotSent);
      }
      outbox := outbox + [OfferMsg(offerSdp)];
      timers := timers.(answerTimeout := true);
      return None;
    }

    /**
     * `answerCall`: gets or creates the connection and fails with "No call offer
     * received yet" when it has no remote description; otherwise opens the camera
     * and microphone, creates and applies a local answer, and broadcasts it when
     * the channel is there at the re-check before the send (`channelAtSend`, as
     * in `PlaceAnswer`). Every failure clears `isAnswering` and records
     * "Failed to answer call: <reason>".
     */
    method AnswerCall(media: MediaResult, loc: Location, negotiated: bool, browserError: string,
                      answerSdp: string, channelAtSend: bool, sent: bool)
      requires Valid()
      modifies this`state, this`pc, this`nextPeer, this`log, this`live, this`outbox
      ensures Valid()
      ensures !state.isAnswering
      ensures live == {Held(old(pc), old(nextPeer)).id}
      ensures log == old(log) + ReplaceCalls(old(pc))
      ensures state == old(state).(isAnswering := false, localStream := state.localStream, error := state.error)
      ensures var held := Held(old(pc), old(nextPeer));
        state.localStream == (if held.remote.Some? && media.Granted? then Some(media.stream) else old(state.localStream))
      ensures var held := Held(old(pc), old(nextPeer));
        var answered := held.remote.Some? && media.Granted? && negotiated && AfterLocal(held.signaling, Answer).Some?;
        pc == Some(if answered then held.(signaling := Stable, local := Some(Description(Answer, answerSdp))) else held)
      ensures var held := Held(old(pc), old(nextPeer));
        var failure := AnswerFailure(held.remote.Some?, media, loc, negotiated && AfterLocal(held.signaling, Answer).Some?,
                                     browserError, channelAtSend, sent);
        && state.error == (if failure.Some? then Some(AnswerFailed(failure.value)) else None)
        && outbox == (if failure.None? then old(outbox) + [AnswerMsg(answerSdp)] else old(outbox))
    {
      state := state.(isAnswering := true, error := None);
      var id := GetOrCreatePeerConnection();
      // the reason the `try` block throws, if it does
      var failure: Option<Reason>;
      if pc.value.remote.None? {
        failure := Some(NoOffer);
      } else {
        failure := PlaceAnswer(media, loc, negotiated, browserError, answerSdp, channelAtSend, sent);
      }
      // the success path and the `catch` block both clear `isAnswering`
      state := state.(isAnswering := false, error := if failure.Some? then Some(AnswerFailed(failure.value)) else None);
    }

    /**
     * The part of `answerCall` that runs once the held connection has the remote
     * offer: the camera and microphone are opened and published, a local answer
     * is created and applied, the channel is checked again, and the answer is
     * broadcast. The first step that fails stops the rest and is returned as the
     * reason.
     *
     * As in `PlaceOffer`, publishing the stream can make the channel effect tear
     * the channel down while this call awaits the browser. `channelAtSend` says
     * whether the channel reference is set at the re-check, at once or after the
     * 500 ms wait; without it the call fails with "Signaling channel not ready".
     * The later "Signaling channel disconnected" check cannot fail.
     */
    method PlaceAnswer(media: MediaResult, loc: Location, negotiated: bool, browserError: string,
                       answerSdp: string, channelAtSend: bool, sent: bool) returns (failure: Option<Reason>)
      requires Valid() && Reusable(pc) && pc.value.remote.Some?
      modifies this`state, this`pc, this`outbox
      ensures Valid()
      ensures failure == AnswerFailure(true, media, loc, negotiated && AfterLocal(old(pc).value.signaling, Answer).Some?,
                                       browserError, channelAtSend, sent)
      ensures pc == (if media.Granted? && negotiated && AfterLocal(old(pc).value.signaling, Answer).Some?
                     then Some(old(pc).value.(signaling := Stable, local := Some(Description(Answer, answerSdp))))
                     else old(pc))
      ensures state == old(state).(localStream := if media.Granted? then Some(media.stream) else old(state.localStream))
      ensures outbox == (if failure.None? then old(outbox) + [AnswerMsg(answerSdp)] else old(outbox))
    {
      if media.Refused? {
        return Some(MediaRefused(media.error, loc));
      }
      state := state.(localStream := Some(media.stream));
      var answered := ApplyLocal(Answer, answerSdp, negotiated);
      if !answered {
        return Some(Rejected(browserError));
      }
      if !channelAtSend {
        return Some(ChannelNotReady);
      }
      if !sent {
        return Some(AnswerNotSent);
      }
      outbox := outbox + [AnswerMsg(answerSdp)];
      return None;
    }

    // -------------------------------------------------------------------------
    // Connection callbacks and timers
    // -------------------------------------------------------------------------

    /**
     * A candidate gathered locally: broadcast when the channel is up, otherwise
     * appended to the same buffer that holds the remote side's candidates.
     */
    method OnLocalCandidate(c: IceCandidate)
      requires Valid()
      modifies this`outbox, this`pending
      ensures Valid()
      ensures channelReady ==> outbox == old(outbox) + [CandidateMsg(c)] && pending == old(pending)
      ensures !channelReady ==> outbox == old(outbox) && pending == old(pending) + [c]
    {
      if channelReady {
        outbox := outbox + [CandidateMsg(c)];
      } else {
        pending := pending + [c];
      }
    }

    /**
     * The held connection's `connectionState` changed to `s`. `connected` marks
     * the call active, clears the error, starts both intervals, schedules a
     * receiver sweep and clears the answer timeout; `connecting` resets the
     * quality; `disconnected`, `failed` and `closed` mark the call inactive and
     * stop the timers, the first two also rating the quality poor and `failed`
     * recording "Connection failed".
     */
    method OnConnectionState(s: ConnectionState)
      requires Valid() && pc.Some?
      modifies this`pc, this`state, this`timers
      ensures Valid()
      ensures pc == Some(old(pc).value.(connection := s))
      ensures s == Connected ==>
        && state == old(state).(isCallActive := true, error := None)
        && timers == Timers(false, true, true, true, old(timers).sweeps + 1)
      ensures s == Connecting ==> state == old(state).(quality := Unknown) && timers == old(timers)
      ensures s == Disconnected ==>
        state == old(state).(isCallActive := false, quality := Poor) && timers == StopCallTimers(old(timers))
      ensures s == Failed ==>
        && state == old(state).(isCallActive := false, error := Some(ConnectionFailed), quality := Poor)
        && timers == StopCallTimers(old(timers))
      ensures s == ConnClosed ==> state == old(state).(isCallActive := false) && timers == StopCallTimers(old(timers))
      ensures s == New ==> state == old(state) && timers == old(timers)
    {
      pc := Some(pc.value.(connection := s));
      match s {
        case Connected =>
          state := state.(isCallActive := true, error := None);
          timers := Timers(false, true, true, true, timers.sweeps + 1);
        case Connecting =>
          state := state.(quality := Unknown);
        case Disconnected =>
          state := state.(isCallActive := false, quality := Poor);
          timers := StopCallTimers(timers);
        case Failed =>
          state := state.(isCallActive := false, error := Some(ConnectionFailed), quality := Poor);
          timers := StopCallTimers(timers);
        case ConnClosed =>
          state := state.(isCallActive := false);
          timers := StopCallTimers(timers);
        case New =>
      }
    }

    /**
     * The `ontrack` callback. The remote track is enabled. A track that came with
     * a stream makes that stream the remote one; a track that came alone is added
     * to the existing remote stream (the reference first, else the published
     * one), or starts a new stream. A track already in the existing stream
     * changes nothing. Otherwise every track of the stream is enabled, the
     * reference is set to it, and a new stream object holding the same track list
     * is published.
     */
    method OnRemoteTrack(track: Track, streams: seq<MediaStream>)
      requires Valid()
      requires forall k :: 0 <= k < |streams| ==> streams[k].id.BrowserStream?
      modifies this`remoteStreamRef, this`state, this`nextStream
      ensures Valid()
      ensures var existing := if old(remoteStreamRef).Some? then old(remoteStreamRef) else old(state.remoteStream);
        UpdatedTracks(Tracks(existing), track, streams).None? ==>
          remoteStreamRef == old(remoteStreamRef) && state == old(state) && nextStream == old(nextStream)
      ensures var existing := if old(remoteStreamRef).Some? then old(remoteStreamRef) else old(state.remoteStream);
        var updated := UpdatedTracks(Tracks(existing), track, streams);
        updated.Some? ==>
          && remoteStreamRef == Some(MediaStream(if |streams| > 0 then streams[0].id
                                                 else if existing.Some? then existing.value.id
                                                 else CreatedStream(old(nextStream)),
                                                 updated.value))
          && old(nextStream) < nextStream
          && state == old(state).(remoteStream := Some(MediaStream(CreatedStream(nextStream - 1), updated.value)))
    {
      var t := track.(enabled := true);
      var id: StreamId;
      var tracks: seq<Track>;
      if |streams| > 0 {
        id, tracks := streams[0].id, EnableAll(streams[0].tracks);
      } else if state.remoteStream.Some? || remoteStreamRef.Some? {
        var existing := if remoteStreamRef.Some? then remoteStreamRef.value else state.remoteStream.value;
        if HasTrack(existing.tracks, t.id) {
          return;
        }
        id, tracks := existing.id, MergeTrack(existing.tracks, t);
      } else {
        id, tracks := CreatedStream(nextStream), [t];
        nextStream := nextStream + 1;
      }
      remoteStreamRef := Some(MediaStream(id, tracks));
      state := state.(remoteStream := Some(MediaStream(CreatedStream(nextStream), tracks)));
      nextStream := nextStream + 1;
    }

    /**
     * The sweep scheduled one second after the connection came up: every
     * receiver that has a track and whose track is not in the remote stream gets
     * it added (or, with no remote stream, starts one). It is not cancelled by
     * `endCall`.
     */
    method ReceiverSweep(receivers: seq<Option<Track>>)
      requires Valid() && timers.sweeps > 0
      modifies this`remoteStreamRef, this`state, this`nextStream, this`timers
      ensures Valid()
      ensures timers == old(timers).(sweeps := old(timers).sweeps - 1)
      ensures Tracks(state.remoteStream) == SweepTracks(Tracks(old(state.remoteStream)), receivers)
      ensures state == old(state).(remoteStream := state.remoteStream)
    {
      timers := timers.(sweeps := timers.sweeps - 1);
      ghost var before := Tracks(state.remoteStream);
      var i := 0;
      while i < |receivers|
        invariant 0 <= i <= |receivers|
        invariant Valid()
        invariant timers == old(timers).(sweeps := old(timers).sweeps - 1)
        invariant state == old(state).(remoteStream := state.remoteStream)
        invariant Tracks(state.remoteStream) == SweepTracks(before, receivers[..i])
      {
        assert receivers[..i + 1][..i] == receivers[..i];
        SweepReceiver(receivers[i]);
        i := i + 1;
      }
      assert receivers[..i] == receivers;
    }

    /** One receiver looked at by the sweep. */
    method SweepReceiver(receiver: Option<Track>)
      requires Valid()
      modifies this`remoteStreamRef, this`state, this`nextStream
      ensures Valid()
      ensures Tracks(state.remoteStream) == SweepStep(Tracks(old(state.remoteStream)), receiver)
      ensures state == old(state).(remoteStream := state.remoteStream)
    {
      if receiver.None? {
        return;
      }
      var track := receiver.value;
      if state.remoteStream.None? {
        var s := MediaStream(CreatedStream(nextStream), [track]);
        nextStream := nextStream + 1;
        remoteStreamRef := Some(s);
        state := state.(remoteStream := Some(s));
      } else if !HasTrack(state.remoteStream.value.tracks, track.id) {
        var grown := state.remoteStream.value.tracks + [track];
        remoteStreamRef := Some(state.remoteStream.value.(tracks := grown));
        state := state.(remoteStream := Some(MediaStream(CreatedStream(nextStream), grown)));
        nextStream := nextStream + 1;
      }
    }

    /**
     * The 30 s answer timeout fires: only a call still being placed and not yet
     * active is abandoned with "Call not answered"; otherwise nothing changes.
     */
    method AnswerTimeoutFired()
      requires Valid() && timers.answerTimeout
      modifies this`state, this`timers
      ensures Valid()
      ensures timers == old(timers).(answerTimeout := false)
      ensures old(state.isCalling) && !old(state.isCallActive) ==>
        state == old(state).(isCalling := false, error := Some(NotAnswered))
      ensures !(old(state.isCalling) && !old(state.isCallActive)) ==> state == old(state)
    {
      timers := timers.(answerTimeout := false);
      if state.isCalling && !state.isCallActive {
        state := state.(isCalling := false, error := Some(NotAnswered));
      }
    }

    /**
     * The 5 s quality check: with a held, connected connection whose statistics
     * were obtained, the quality becomes the one the report yields; otherwise
     * nothing changes.
     */
    method CheckConnectionQuality(report: Option<seq<Stat>>)
      requires Valid() && timers.qualityCheck
      modifies this`state
      ensures Valid()
      ensures pc.Some? && pc.value.connection == Connected && report.Some? ==>
        state == old(state).(quality := ReportQuality(report.value))
      ensures !(pc.Some? && pc.value.connection == Connected && report.Some?) ==> state == old(state)
    {
      if pc.None? || pc.value.connection != Connected {
        return;
      }
      if report.None? {
        return;
      }
      var q := ClassifyReport(report.value);
      state := state.(quality := q);
    }
  }

  // ---------------------------------------------------------------------------
  // Runs of several events
  // ---------------------------------------------------------------------------

  /**
   * A candidate that arrives before the offer is buffered, and is then dropped
   * by the offer rather than handed to the new connection: after an accepted
   * offer with nothing arriving meanwhile, the only call made on the connection
   * is the one that applies the offer, and the buffer is empty.
   */
  method EarlyCandidateIsDropped(c: IceCandidate, sdp: string)
    returns (buffered: seq<IceCandidate>, calls: seq<BrowserCall>, kept: seq<IceCandidate>)
    requires Constructible(c) && c.candidate != ""
    ensures buffered == [c]
    ensures calls == [SetRemote(0, Description(Offer, sdp))] && kept == []
  {
    var session := new CallSession();
    session.OnCandidate(CandidatePayload(Some(c.candidate), c.sdpMLineIndex, c.sdpMid), None);
    buffered := session.pending;
    var before := session.log;
    session.OnOffer(sdp, true, []);
    calls := session.log[|before|..];
    kept := session.pending;
  }

  /**
   * A successfully placed call has `isCalling` cleared before the answer timeout
   * can fire, so the timeout's guard fails and it never reports an unanswered call.
   */
  method TimeoutAfterStartIsInert(stream: MediaStream, loc: Location, sdp: string) returns (reported: bool)
    ensures !reported
  {
    var session := new CallSession();
    session.OnChannelStatus("SUBSCRIBED");
    session.StartCall();
    session.ResumeStartCall(0, Granted(stream), loc, true, "", sdp, true, true);
    assert session.timers.answerTimeout;
    session.AnswerTimeoutFired();
    reported := session.state.error == Some(NotAnswered);
  }

  /**
   * A call started before the channel has subscribed waits rather than fails:
   * until `SUBSCRIBED` it has `isCalling` set, no error and nothing sent; once
   * the channel subscribes, the resumed call broadcasts its offer and ends with
   * no error.
   */
  method StartBeforeSubscribedWaits(stream: MediaStream, loc: Location, sdp: string)
    returns (failedEarly: bool, offerSent: bool)
    ensures !failedEarly && offerSent
  {
    var session := new CallSession();
    session.StartCall();
    failedEarly := session.state.error.Some? || !session.state.isCalling || session.outbox != [];
    session.OnChannelStatus("SUBSCRIBED");
    session.ResumeStartCall(0, Granted(stream), loc, true, "", sdp, true, true);
    offerSent := session.outbox == [OfferMsg(sdp)] && session.state.error.None?;
  }

  /**
   * A session in which one call has been placed on a subscribed channel: the
   * camera stream is published, no call is waiting, and the channel effect
   * has not run since the stream changed.
   */
  method PlacedCall(stream: MediaStream, loc: Location, sdp: string) returns (session: CallSession)
    ensures fresh(session) && session.Valid() && session.PromisesValid()
    ensures session.state.localStream == Some(stream) && session.effectStream.None?
    ensures session.promise == 0 && session.waiting == multiset{}
  {
    session := new CallSession();
    session.OnChannelStatus("SUBSCRIBED");
    session.StartCall();
    session.ResumeStartCall(0, Granted(stream), loc, true, "", sdp, true, true);
  }

  /**
   * Publishing the camera stream during a call makes the channel effect tear
   * the channel down and subscribe anew. A call started after that teardown
   * waits again, on the new promise, with no error and nothing sent, and the
   * new channel's `SUBSCRIBED` is what releases it.
   */
  method ResetMakesStartWaitAgain(stream: MediaStream, loc: Location, sdp: string)
    returns (waitsAgain: bool, released: bool)
    ensures waitsAgain && released
  {
    var session := PlacedCall(stream, loc, sdp);
    session.ChannelReset();
    var sentBefore := session.outbox;
    session.StartCall();
    assert session.waiting == multiset{1};
    waitsAgain := session.waiting == multiset{1} && 1 !in session.resolved && !session.channelReady
                  && session.state.isCalling && session.state.error.None? && session.outbox == sentBefore;
    session.OnChannelStatus("SUBSCRIBED");
    released := 1 in session.resolved && session.channelReady;
  }

  /**
   * An offer that arrives after this side has placed its own offer is accepted:
   * the local offer is rolled back, the connection holds the remote offer, and
   * the hook is ready to answer it.
   */
  method CrossingOfferRollsBack(stream: MediaStream, loc: Location, ownSdp: string, otherSdp: string)
    returns (before: Option<Peer>, after: Option<Peer>, answering: bool)
    ensures before == Some(NewPeer(0).(signaling := HaveLocalOffer, local := Some(Description(Offer, ownSdp))))
    ensures after == Some(NewPeer(0).(signaling := HaveRemoteOffer, remote := Some(Description(Offer, otherSdp))))
    ensures answering
  {
    var session := new CallSession();
    session.OnChannelStatus("SUBSCRIBED");
    session.StartCall();
    session.ResumeStartCall(0, Granted(stream), loc, true, "", ownSdp, true, true);
    before := session.pc;
    session.OnOffer(otherSdp, true, []);
    after := session.pc;
    answering := session.state.isAnswering && session.state.error.None?;
  }
}
