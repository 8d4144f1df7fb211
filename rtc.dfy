/**
 * The browser's WebRTC objects as the signalling code sees them: a peer
 * connection reduced to its identity, its offer/answer state and its
 * descriptions; ICE candidates; media tracks and streams; and the browser calls
 * the code makes, so that their order can be stated.
 *
 * The offer/answer state machine is the one of section 3.2 of RFC 8829
 * (JavaScript Session Establishment Protocol): which description types a
 * connection accepts locally and remotely in each signalling state, and the
 * state it moves to. A remote offer in `have-local-offer` is accepted after
 * the implicit rollback of the local offer that the W3C WebRTC 1.0
 * recommendation adds to `setRemoteDescription`; an explicit rollback
 * description is not modelled.
 */
module Rtc {
  import opened Wrappers

  // ---------------------------------------------------------------------------
  // Offer/answer negotiation
  // ---------------------------------------------------------------------------

  datatype SignalingState =
    | Stable
    | HaveLocalOffer
    | HaveRemoteOffer
    | HaveLocalPranswer
    | HaveRemotePranswer
    | Closed

  datatype SdpType = Offer | Pranswer | Answer

  datatype Description = Description(kind: SdpType, sdp: string)

  /**
   * The state after applying a local description of type `t` in state `s`, or
   * `None` when the connection rejects it (it then stays in `s`).
   */
  function AfterLocal(s: SignalingState, t: SdpType): (r: Option<SignalingState>)
    ensures r.Some? ==> s != Closed && r.value != Closed
    ensures t == Offer ==> (r.Some? <==> s == Stable || s == HaveLocalOffer)
    ensures t != Offer ==> (r.Some? <==> s == HaveRemoteOffer || s == HaveLocalPranswer)
  {
    match (s, t)
    case (Stable, Offer) => Some(HaveLocalOffer)
    case (HaveLocalOffer, Offer) => Some(HaveLocalOffer)
    case (HaveRemoteOffer, Pranswer) => Some(HaveLocalPranswer)
    case (HaveLocalPranswer, Pranswer) => Some(HaveLocalPranswer)
    case (HaveRemoteOffer, Answer) => Some(Stable)
    case (HaveLocalPranswer, Answer) => Some(Stable)
    case _ => None
  }

  /**
   * The state after applying a remote description of type `t` in state `s`, or
   * `None` when the connection rejects it. A remote offer that meets a local
   * one rolls the local offer back first.
   */
  function AfterRemote(s: SignalingState, t: SdpType): (r: Option<SignalingState>)
    ensures r.Some? ==> s != Closed && r.value != Closed
    ensures t == Offer ==> (r.Some? <==> s == Stable || s == HaveRemoteOffer || s == HaveLocalOffer)
    ensures t == Offer && r.Some? ==> r.value == HaveRemoteOffer
    ensures t != Offer ==> (r.Some? <==> s == HaveLocalOffer || s == HaveRemotePranswer)
  {
    match (s, t)
    case (Stable, Offer) => Some(HaveRemoteOffer)
    case (HaveRemoteOffer, Offer) => Some(HaveRemoteOffer)
    case (HaveLocalOffer, Offer) => Some(HaveRemoteOffer)
    case (HaveLocalOffer, Pranswer) => Some(HaveRemotePranswer)
    case (HaveRemotePranswer, Pranswer) => Some(HaveRemotePranswer)
    case (HaveLocalOffer, Answer) => Some(Stable)
    case (HaveRemotePranswer, Answer) => Some(Stable)
    case _ => None
  }

  /** An offer/answer exchange started from `Stable` on either side returns to `Stable`. */
  lemma OfferAnswerReturnsToStable()
    ensures AfterLocal(Stable, Offer) == Some(HaveLocalOffer)
    ensures AfterRemote(HaveLocalOffer, Answer) == Some(Stable)
    ensures AfterRemote(Stable, Offer) == Some(HaveRemoteOffer)
    ensures AfterLocal(HaveRemoteOffer, Answer) == Some(Stable)
  {
  }

  // ---------------------------------------------------------------------------
  // Connections
  // ---------------------------------------------------------------------------

  datatype ConnectionState = New | Connecting | Connected | Disconnected | Failed | ConnClosed

  /**
   * A peer connection: `id` is its object identity, `remote` its
   * `remoteDescription`, `signaling` and `connection` its two state attributes.
   */
  datatype Peer = Peer(
    id: nat,
    signaling: SignalingState,
    local: Option<Description>,
    remote: Option<Description>,
    connection: ConnectionState)

  /** `new RTCPeerConnection(...)`, given the identity the new object receives. */
  function NewPeer(id: nat): (p: Peer)
    ensures p.id == id && p.signaling == Stable && p.connection == New
    ensures p.local.None? && p.remote.None?
  {
    Peer(id, Stable, None, None, New)
  }

  // ---------------------------------------------------------------------------
  // ICE candidates
  // ---------------------------------------------------------------------------

  /** An `RTCIceCandidate`: the candidate line and the media section it belongs to. */
  datatype IceCandidate = IceCandidate(candidate: string, sdpMLineIndex: Option<nat>, sdpMid: Option<string>)

  /**
   * The constructor `new RTCIceCandidate(init)` throws a TypeError when both
   * `sdpMid` and `sdpMLineIndex` are missing.
   */
  predicate Constructible(c: IceCandidate) {
    c.sdpMid.Some? || c.sdpMLineIndex.Some?
  }

  // ---------------------------------------------------------------------------
  // Tracks and streams
  // ---------------------------------------------------------------------------

  datatype TrackKind = Audio | Video

  datatype Track = Track(id: string, kind: TrackKind, enabled: bool)

  /**
   * The identity of a `MediaStream` object: one the browser handed over, or one
   * the application created with `new MediaStream(...)` (numbered in creation order).
   */
  datatype StreamId = BrowserStream(n: nat) | CreatedStream(n: nat)

  datatype MediaStream = MediaStream(id: StreamId, tracks: seq<Track>)

  /** `stream.getTracks().some(t => t.id === id)` */
  predicate HasTrack(tracks: seq<Track>, id: string) {
    exists k :: 0 <= k < |tracks| && tracks[k].id == id
  }

  /** No two tracks share an id. */
  predicate DistinctIds(tracks: seq<Track>) {
    forall j, k :: 0 <= j < k < |tracks| ==> tracks[j].id != tracks[k].id
  }

  /** Every track's `enabled` flag set to true, as the code does to each remote track. */
  function EnableAll(tracks: seq<Track>): (r: seq<Track>)
    ensures |r| == |tracks|
    ensures forall k :: 0 <= k < |r| ==> r[k] == tracks[k].(enabled := true)
  {
    if tracks == [] then [] else [tracks[0].(enabled := true)] + EnableAll(tracks[1..])
  }

  /** Enabling tracks keeps their ids, so it keeps them distinct. */
  lemma EnableAllKeepsIds(tracks: seq<Track>, id: string)
    ensures HasTrack(EnableAll(tracks), id) <==> HasTrack(tracks, id)
    ensures DistinctIds(tracks) ==> DistinctIds(EnableAll(tracks))
  {
    var r := EnableAll(tracks);
    if HasTrack(r, id) {
      var k :| 0 <= k < |r| && r[k].id == id;
      assert tracks[k].id == id;
    }
    if HasTrack(tracks, id) {
      var k :| 0 <= k < |tracks| && tracks[k].id == id;
      assert r[k].id == id;
    }
  }

  // ---------------------------------------------------------------------------
  // Browser calls
  // ---------------------------------------------------------------------------

  /** A call the application makes on a peer connection, recorded in order. */
  datatype BrowserCall =
    | SetRemote(peer: nat, desc: Description)
    | AddIce(peer: nat, cand: IceCandidate)
    | Close(peer: nat)

  /** The calls `addIceCandidate(c)` on connection `peer`, one per candidate, in order. */
  function AddIceAll(peer: nat, cands: seq<IceCandidate>): (r: seq<BrowserCall>)
    ensures |r| == |cands|
    ensures forall k :: 0 <= k < |r| ==> r[k] == AddIce(peer, cands[k])
  {
    if cands == [] then [] else [AddIce(peer, cands[0])] + AddIceAll(peer, cands[1..])
  }

  /** `AddIceAll` distributes over concatenation: buffers drained one after the other. */
  lemma {:induction false} AddIceAllAppend(peer: nat, a: seq<IceCandidate>, b: seq<IceCandidate>)
    ensures AddIceAll(peer, a + b) == AddIceAll(peer, a) + AddIceAll(peer, b)
  {
    var l, r := AddIceAll(peer, a + b), AddIceAll(peer, a) + AddIceAll(peer, b);
    assert |l| == |r|;
    forall k | 0 <= k < |l| ensures l[k] == r[k] {
      if k < |a| {
        assert (a + b)[k] == a[k];
      } else {
        assert (a + b)[k] == b[k - |a|];
      }
    }
  }

  /** The number of times `c` is passed to `addIceCandidate` on `peer` in `log`. */
  function TimesAdded(log: seq<BrowserCall>, peer: nat, c: IceCandidate): nat {
    if log == [] then 0
    else (if log[0] == AddIce(peer, c) then 1 else 0) + TimesAdded(log[1..], peer, c)
  }

  /** The number of occurrences of `c` in `cands`. */
  function Occurrences(cands: seq<IceCandidate>, c: IceCandidate): nat {
    if cands == [] then 0 else (if cands[0] == c then 1 else 0) + Occurrences(cands[1..], c)
  }

  /**
   * Draining a buffer passes each buffered candidate to `addIceCandidate` exactly
   * as often as it occurs in the buffer: once, for a buffer without repeats.
   */
  lemma {:induction false} AddIceAllExactlyOnce(peer: nat, cands: seq<IceCandidate>, c: IceCandidate)
    ensures TimesAdded(AddIceAll(peer, cands), peer, c) == Occurrences(cands, c)
  {
    if cands != [] {
      AddIceAllExactlyOnce(peer, cands[1..], c);
      assert AddIceAll(peer, cands)[1..] == AddIceAll(peer, cands[1..]);
    }
  }
}
