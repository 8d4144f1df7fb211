/**
 * The earlier, smaller call hook of src/components/dashboard/VideoChat.tsx as a
 * class whose methods are the events it reacts to. Unlike the hook of
 * src/hooks/use-webrtc-call.ts it keeps no candidate buffer and no timers, it
 * creates a new connection for every call start and every received offer
 * without closing the one it held, and it ignores every signalling message
 * whose `from` is its own user id.
 *
 * Each `await` is an outcome parameter. A method that can throw returns the
 * message of the error its `catch` block receives (`None` when nothing was
 * thrown); the toast that shows it is not modelled.
 */
module VideoChat {
  import opened Wrappers
  import opened Rtc

  /** The hook's state record. */
  datatype ChatState = ChatState(
    localStream: Option<MediaStream>,
    remoteStream: Option<MediaStream>,
    isCallActive: bool,
    isCalling: bool,
    isAnswering: bool,
    error: Option<string>)

  /** The record the hook starts from and `endCall` overwrites the state with. */
  const Reset := ChatState(None, None, false, false, false, None)

  /** The event of a broadcast message and its event-specific payload. */
  datatype Event = OfferEvent(sdp: string) | AnswerEvent(sdp: string) | CandidateEvent(cand: IceCandidate) | CallEndEvent

  /** A broadcast message: its event and the `from` field of its payload. */
  datatype Message = Message(event: Event, from: string)

  /** The message a `catch` block shows for an error whose message may be empty: `e.message || 'Call failed'`. */
  function StartFailureText(message: string): (r: string)
    ensures r != ""
    ensures message != "" ==> r == message
  {
    if message == "" then "Call failed" else message
  }

  const PeerMissing := "Peer connection missing"

  class ChatSession {
    /** the `userId` the hook was created for */
    const userId: string
    /** `peerConnectionRef` */
    var pc: Option<Peer>
    /** `signalChannelRef.current` is set */
    var channelSet: bool
    /** `channelReadyRef`; set together with the channel reference and never cleared */
    var channelReady: bool
    /** `startCall` invocations that have set `isCalling` and not yet gone on to dial */
    var pendingStarts: nat
    var state: ChatState
    /** messages broadcast on the channel, oldest first */
    var outbox: seq<Message>
    /** the identity the next connection receives */
    var nextPeer: nat
    /** calls made on peer connections, oldest first */
    ghost var log: seq<BrowserCall>
    /** the connections created and not closed */
    var open: set<nat>

    ghost predicate Valid()
      reads this
    {
      && (forall k :: 0 <= k < |outbox| ==> outbox[k].from == userId)
      && (pc.Some? ==> pc.value.id < nextPeer && pc.value.id in open)
      && (forall id :: id in open ==> id < nextPeer)
      && channelReady == channelSet
    }

    constructor (userId: string)
      ensures Valid()
      ensures this.userId == userId
      ensures pc.None? && !channelSet && !channelReady && state == Reset
      ensures outbox == [] && nextPeer == 0 && log == [] && open == {} && pendingStarts == 0
    {
      this.userId := userId;
      pc := None;
      channelSet := false;
      channelReady := false;
      pendingStarts := 0;
      state := Reset;
      outbox := [];
      nextPeer := 0;
      log := [];
      open := {};
    }

    /** `createPeerConnection()` assigned to the ref: a new connection, the old one left open. */
    method CreatePeerConnection() returns (id: nat)
      requires Valid()
      modifies this`pc, this`nextPeer, this`open
      ensures Valid()
      ensures id == old(nextPeer) && nextPeer == id + 1 && pc == Some(NewPeer(id))
      ensures id !in old(open) && open == old(open) + {id}
    {
      id := nextPeer;
      nextPeer := nextPeer + 1;
      pc := Some(NewPeer(id));
      open := open + {id};
    }

    // -------------------------------------------------------------------------
    // Received messages
    // -------------------------------------------------------------------------

    /**
     * An `offer` message. One from this user is ignored. Otherwise a new
     * connection replaces the held one (which stays open), the offer is applied
     * to it, and once that succeeds the hook is answering.
     */
    method OnOffer(from: string, sdp: string, accepted: bool)
      requires Valid()
      modifies this`pc, this`nextPeer, this`open, this`log, this`state
      ensures Valid()
      ensures from == userId ==>
        pc == old(pc) && nextPeer == old(nextPeer) && open == old(open) && log == old(log) && state == old(state)
      ensures from != userId ==>
        var id, desc := old(nextPeer), Description(Offer, sdp);
        && nextPeer == id + 1 && open == old(open) + {id}
        && log == old(log) + [SetRemote(id, desc)]
        && pc == Some(if accepted then NewPeer(id).(signaling := HaveRemoteOffer, remote := Some(desc)) else NewPeer(id))
        && state == (if accepted then old(state).(isAnswering := true) else old(state))
    {
      if from == userId {
        return;
      }
      var id := CreatePeerConnection();
      var desc := Description(Offer, sdp);
      log := log + [SetRemote(id, desc)];
      if accepted {
        pc := Some(pc.value.(signaling := AfterRemote(Stable, Offer).value, remote := Some(desc)));
        state := state.(isAnswering := true);
      }
    }

    /**
     * An `answer` message. One from this user is ignored, and so is one that
     * arrives with no connection held. Otherwise it is applied to the held
     * connection, which accepts it only in `have-local-offer` (or after a
     * provisional answer); the state record is never touched.
     */
    method OnAnswer(from: string, sdp: string, accepted: bool)
      requires Valid()
      modifies this`pc, this`log
      ensures Valid()
      ensures from == userId || old(pc).None? ==> pc == old(pc) && log == old(log)
      ensures from != userId && old(pc).Some? ==>
        var p, desc := old(pc).value, Description(Answer, sdp);
        var next := AfterRemote(p.signaling, Answer);
        && log == old(log) + [SetRemote(p.id, desc)]
        && pc == Some(if accepted && next.Some? then p.(signaling := next.value, remote := Some(desc)) else p)
    {
      if from == userId || pc.None? {
        return;
      }
      var desc := Description(Answer, sdp);
      log := log + [SetRemote(pc.value.id, desc)];
      var next := AfterRemote(pc.value.signaling, Answer);
      if accepted && next.Some? {
        pc := Some(pc.value.(signaling := next.value, remote := Some(desc)));
      }
    }

    /**
     * An `ice-candidate` message: unless it is from this user, its candidate is
     * handed to the held connection, if any. Nothing is buffered.
     */
    method OnCandidate(from: string, c: IceCandidate)
      requires Valid()
      modifies this`log
      ensures Valid()
      ensures from != userId && pc.Some? ==> log == old(log) + [AddIce(pc.value.id, c)]
      ensures from == userId || pc.None? ==> log == old(log)
    {
      if from != userId && pc.Some? {
        log := log + [AddIce(pc.value.id, c)];
      }
    }

    /** The channel's subscription status: `SUBSCRIBED` sets the channel and marks it ready. */
    method OnChannelStatus(status: string)
      requires Valid()
      modifies this`channelSet, this`channelReady
      ensures Valid()
      ensures status == "SUBSCRIBED" ==> channelSet && channelReady
      ensures status != "SUBSCRIBED" ==> channelSet == old(channelSet) && channelReady == old(channelReady)
    {
      if status == "SUBSCRIBED" {
        channelSet := true;
        channelReady := true;
      }
    }

    // -------------------------------------------------------------------------
    // Connection callbacks
    // -------------------------------------------------------------------------

    /** A candidate gathered locally: broadcast from this user when there is one and the channel is set. */
    method OnLocalCandidate(c: Option<IceCandidate>)
      requires Valid()
      modifies this`outbox
      ensures Valid()
      ensures c.Some? && channelSet ==> outbox == old(outbox) + [Message(CandidateEvent(c.value), userId)]
      ensures !(c.Some? && channelSet) ==> outbox == old(outbox)
    {
      if c.Some? && channelSet {
        outbox := outbox + [Message(CandidateEvent(c.value), userId)];
      }
    }

    /** The `ontrack` callback: the event's first stream becomes the remote stream (none when it came alone). */
    method OnTrack(streams: seq<MediaStream>)
      requires Valid()
      modifies this`state
      ensures Valid()
      ensures state == old(state).(remoteStream := if |streams| > 0 then Some(streams[0]) else None)
    {
      state := state.(remoteStream := if |streams| > 0 then Some(streams[0]) else None);
    }

    /**
     * The `connectionState` of connection `peer` changed to `s`. The callback
     * belongs to the connection it was created for, which need not be the held
     * one: `connected` marks the call active, and `failed` or `disconnected`
     * ends the call, whichever connection reported it.
     */
    method OnConnectionState(peer: nat, s: ConnectionState)
      requires Valid() && peer in open
      modifies this`pc, this`log, this`open, this`state, this`outbox
      ensures Valid()
      ensures s == Connected ==>
        && state == old(state).(isCallActive := true) && log == old(log) && open == old(open) && outbox == old(outbox)
        && pc == (if old(pc).Some? && old(pc).value.id == peer then Some(old(pc).value.(connection := s)) else old(pc))
      ensures s == Failed || s == Disconnected ==>
        && pc.None? && state == Reset && log == old(log) + CloseCalls(old(pc))
        && outbox == (if channelSet then old(outbox) + [Message(CallEndEvent, userId)] else old(outbox))
      ensures s !in {Connected, Failed, Disconnected} ==>
        && state == old(state) && log == old(log) && open == old(open) && outbox == old(outbox)
        && pc == (if old(pc).Some? && old(pc).value.id == peer then Some(old(pc).value.(connection := s)) else old(pc))
    {
      if pc.Some? && pc.value.id == peer {
        pc := Some(pc.value.(connection := s));
      }
      if s == Connected {
        state := state.(isCallActive := true);
      }
      if s == Failed || s == Disconnected {
        EndCall();
      }
    }

    // -------------------------------------------------------------------------
    // User actions
    // -------------------------------------------------------------------------

    /**
     * `startCall`, up to the point where it dials: `isCalling` is set. When the
     * channel is not ready yet the call awaits the channel-ready promise, which
     * only `SUBSCRIBED` resolves; either way the rest runs in `Dial`.
     */
    method StartCall()
      requires Valid()
      modifies this`state, this`pendingStarts
      ensures Valid()
      ensures state == old(state).(isCalling := true)
      ensures pendingStarts == old(pendingStarts) + 1
    {
      state := state.(isCalling := true);
      pendingStarts := pendingStarts + 1;
    }

    /**
     * The rest of `startCall`, once the channel is ready. The check that throws
     * "Signaling channel not ready" cannot fail here: the channel reference is set
     * together with the ready flag and neither is ever cleared. A new connection
     * replaces the held one, the camera and microphone are opened and published,
     * a local offer is created and applied, and the offer is broadcast. Only the
     * `catch` block clears `isCalling`: on success it stays set. `thrown` is the
     * text the `catch` block shows, an empty browser message replaced by
     * "Call failed".
     */
    method Dial(media: Option<MediaStream>, mediaError: string, negotiated: bool, browserError: string,
                offerSdp: string) returns (thrown: Option<string>)
      requires Valid() && channelReady && pendingStarts > 0
      modifies this`pc, this`nextPeer, this`open, this`state, this`outbox, this`pendingStarts
      ensures Valid()
      ensures pendingStarts == old(pendingStarts) - 1
      ensures nextPeer == old(nextPeer) + 1 && open == old(open) + {old(nextPeer)}
      ensures var offered := media.Some? && negotiated;
        pc == Some(if offered then NewPeer(old(nextPeer)).(signaling := HaveLocalOffer, local := Some(Description(Offer, offerSdp)))
                   else NewPeer(old(nextPeer)))
      ensures && thrown == (if media.None? then Some(StartFailureText(mediaError))
                            else if !negotiated then Some(StartFailureText(browserError)) else None)
        && state == old(state).(isCalling := thrown.None? && old(state.isCalling),
                                localStream := if media.Some? then media else old(state.localStream))
        && outbox == (if thrown.None? then old(outbox) + [Message(OfferEvent(offerSdp), userId)] else old(outbox))
    {
      pendingStarts := pendingStarts - 1;
      var id := CreatePeerConnection();
      if media.None? {
        thrown := Some(StartFailureText(mediaError));
        state := state.(isCalling := false);
        return;
      }
      state := state.(localStream := media);
      if !negotiated {
        thrown := Some(StartFailureText(browserError));
        state := state.(isCalling := false);
        return;
      }
      pc := Some(pc.value.(signaling := AfterLocal(Stable, Offer).value, local := Some(Description(Offer, offerSdp))));
      outbox := outbox + [Message(OfferEvent(offerSdp), userId)];
      thrown := None;
    }

    /**
     * `answerCall`: without a held connection it throws "Peer connection
     * missing". Otherwise the camera and microphone are opened and published, a
     * local answer is created and applied (which the connection accepts only
     * while it holds a remote offer), and the answer is broadcast when the
     * channel is set. The state flags are not touched.
     */
    method AnswerCall(media: Option<MediaStream>, mediaError: string, negotiated: bool, browserError: string,
                      answerSdp: string) returns (thrown: Option<string>)
      requires Valid()
      modifies this`pc, this`state, this`outbox
      ensures Valid()
      ensures old(pc).None? ==> thrown == Some(PeerMissing) && pc == old(pc) && state == old(state) && outbox == old(outbox)
      ensures old(pc).Some? ==>
        var p := old(pc).value;
        var next := AfterLocal(p.signaling, Answer);
        var answered := media.Some? && negotiated && next.Some?;
        && thrown == (if media.None? then Some(mediaError) else if !answered then Some(browserError) else None)
        && pc == (if answered then Some(p.(signaling := next.value, local := Some(Description(Answer, answerSdp)))) else old(pc))
        && state == old(state).(localStream := if media.Some? then media else old(state.localStream))
        && outbox == (if answered && channelSet then old(outbox) + [Message(AnswerEvent(answerSdp), userId)] else old(outbox))
    {
      if pc.None? {
        return Some(PeerMissing);
      }
      if media.None? {
        return Some(mediaError);
      }
      state := state.(localStream := media);
      var next := AfterLocal(pc.value.signaling, Answer);
      if !negotiated || next.None? {
        return Some(browserError);
      }
      pc := Some(pc.value.(signaling := next.value, local := Some(Description(Answer, answerSdp))));
      if channelSet {
        outbox := outbox + [Message(AnswerEvent(answerSdp), userId)];
      }
      return None;
    }

    /**
     * `endCall`: the held connection is closed and dropped, the state record is
     * overwritten with `Reset`, and `call-end` is broadcast when the channel is set.
     */
    method EndCall()
      requires Valid()
      modifies this`pc, this`log, this`open, this`state, this`outbox
      ensures Valid()
      ensures pc.None? && state == Reset && log == old(log) + CloseCalls(old(pc))
      ensures open == (if old(pc).Some? then old(open) - {old(pc).value.id} else old(open))
      ensures outbox == (if channelSet then old(outbox) + [Message(CallEndEvent, userId)] else old(outbox))
    {
      if pc.Some? {
        log := log + [Close(pc.value.id)];
        open := open - {pc.value.id};
      }
      pc := None;
      state := Reset;
      if channelSet {
        outbox := outbox + [Message(CallEndEvent, userId)];
      }
    }
  }

  /** The `close()` call made on the held connection, if there is one. */
  function CloseCalls(p: Option<Peer>): seq<BrowserCall> {
    if p.Some? then [Close(p.value.id)] else []
  }

  // ---------------------------------------------------------------------------
  // Runs of several events
  // ---------------------------------------------------------------------------

  /**
   * Ending a call twice leaves the same state as ending it once; only a second
   * `call-end` message is sent.
   */
  method EndCallTwice(session: ChatSession) returns (first: ChatState, second: ChatState, sent: nat)
    requires session.Valid() && session.channelSet
    modifies session
    ensures first == second == Reset && sent == 2
  {
    var before := |session.outbox|;
    session.EndCall();
    first := session.state;
    session.EndCall();
    second := session.state;
    sent := |session.outbox| - before;
  }

  /**
   * A caller that receives an offer of its own broadcast ignores it, while a
   * received offer from the other side replaces the connection the call was
   * started on without closing it: two connections are then open.
   */
  method OfferDuringCallLeaksConnection(stream: MediaStream, offerSdp: string, otherSdp: string)
    returns (echoIgnored: bool, openConnections: nat)
    ensures echoIgnored && openConnections == 2
  {
    var session := new ChatSession("caller");
    session.OnChannelStatus("SUBSCRIBED");
    session.StartCall();
    var thrown := session.Dial(Some(stream), "", true, "", offerSdp);
    var held := session.pc;
    session.OnOffer("caller", offerSdp, true);
    echoIgnored := session.pc == held;
    session.OnOffer("callee", otherSdp, true);
    assert session.open == {0, 1};
    openConnections := |session.open|;
  }

  /**
   * A connection that was replaced but not closed still ends the current call
   * when it fails.
   */
  method StaleFailureEndsCall(stream: MediaStream, sdp: string, otherSdp: string) returns (active: bool, held: bool)
    ensures !active && !held
  {
    var session := new ChatSession("callee");
    session.OnChannelStatus("SUBSCRIBED");
    session.OnOffer("caller", sdp, true);
    session.OnOffer("caller", otherSdp, true);
    session.OnConnectionState(1, Connected);
    session.OnConnectionState(0, Failed);
    active := session.state.isCallActive;
    held := session.pc.Some?;
  }
}
