/**
 * The video-call hook as an object: the call state, the error record, the media
 * streams, the peer connection, the candidate buffer and the processed-candidate
 * set, updated by the hook's actions, by the peer connection's callbacks and by
 * each polled batch of signaling messages.
 *
 * Browser and backend effects are parameters: the stream `getUserMedia` yields,
 * the SDP the browser generates, and the name of the error the setup threw, if any.
 * Payloads handed to the signaling transport are recorded in `sent`, channel clears
 * in `clearRequests`, and the values passed to `setCallState` in the ghost `trace`.
 */
module VideoCallHook {
  import opened Wrappers
  import opened ChatIdentity
  import opened CallSignaling

  datatype MediaStream = MediaStream(id: nat)

  class VideoCallSession {
    const recipient: Option<Principal>
    const chatId: Option<ChatId>

    var callState: CallState
    var error: Option<VideoCallError>
    var localStream: Option<MediaStream>
    var remoteStream: Option<MediaStream>
    var peer: Option<PeerConnection>
    var pending: seq<CandidateKey>
    var processed: set<CandidateKey>
    var sent: seq<Payload>
    var clearRequests: seq<ChatId>
    /** `setTimeout` callbacks of `endCall` that have not fired yet. */
    var idleTimers: nat
    ghost var trace: seq<CallState>

    /** The negotiation part of the state, as the message handling specification sees it. */
    function Signals(): Negotiation
      reads this
    {
      Negotiation(callState, peer, pending, processed)
    }

    /** Only the three raised error records are ever stored, and no candidate reaches the connection twice. */
    ghost predicate Valid()
      reads this
    {
      (error.Some? ==> IsRaisedError(error.value)) && CandidatesOnce(Signals())
    }

    ghost predicate CleanedUp()
      reads this
    {
      peer.None? && localStream.None? && remoteStream.None? && pending == [] && processed == {}
    }

    constructor (recipient: Option<Principal>, chatId: Option<ChatId>)
      ensures Valid()
      ensures this.recipient == recipient && this.chatId == chatId
      ensures callState == Idle && error.None? && CleanedUp()
      ensures sent == [] && clearRequests == [] && idleTimers == 0 && trace == []
    {
      this.recipient := recipient;
      this.chatId := chatId;
      callState := Idle;
      error := None;
      localStream := None;
      remoteStream := None;
      peer := None;
      pending := [];
      processed := {};
      sent := [];
      clearRequests := [];
      idleTimers := 0;
      trace := [];
    }

    /** `cleanup`: closes and forgets the connection, drops both streams, empties the buffer and the processed set. */
    method Cleanup()
      modifies this
      ensures CleanedUp()
      ensures callState == old(callState) && error == old(error)
      ensures sent == old(sent) && clearRequests == old(clearRequests) && idleTimers == old(idleTimers)
      ensures trace == old(trace)
    {
      peer := None;
      localStream := None;
      remoteStream := None;
      pending := [];
      processed := {};
    }

    /** The catch block shared by `startCall` and `acceptCall`. */
    method FailSetup(name: string)
      modifies this
      ensures callState == Error && error == Some(SetupError(name)) && CleanedUp()
      ensures sent == old(sent) && clearRequests == old(clearRequests) && idleTimers == old(idleTimers)
      ensures trace == old(trace) + [Error]
    {
      error := Some(SetupError(name));
      callState := Error;
      trace := trace + [Error];
      Cleanup();
    }

    /**
     * `startCall`: a no-op returning false unless a recipient is set and the call is idle.
     * Otherwise it passes through `outgoing`; on success it holds the local stream and a fresh
     * connection, has sent the offer and ends in `connecting`; on failure it ends in `error`,
     * cleaned up, with the error chosen by the thrown error's name.
     */
    method StartCall(stream: MediaStream, offerSdp: string, failure: Option<string>) returns (ok: bool)
      requires Valid()
      modifies this
      ensures Valid()
      ensures ok <==> recipient.Some? && old(callState) == Idle && failure.None?
      ensures !(recipient.Some? && old(callState) == Idle) ==> unchanged(this)
      ensures recipient.Some? && old(callState) == Idle && failure.None? ==>
        && callState == Connecting && error.None?
        && localStream == Some(stream) && remoteStream == old(remoteStream)
        && peer == Some(PeerConnection(None, []))
        && pending == old(pending) && processed == old(processed)
        && sent == old(sent) + [Offer(offerSdp)]
        && clearRequests == old(clearRequests) && idleTimers == old(idleTimers)
        && trace == old(trace) + [Outgoing, Connecting]
      ensures recipient.Some? && old(callState) == Idle && failure.Some? ==>
        && callState == Error && error == Some(SetupError(failure.value)) && CleanedUp()
        && sent == old(sent) && clearRequests == old(clearRequests) && idleTimers == old(idleTimers)
        && trace == old(trace) + [Outgoing, Error]
    {
      if recipient.None? || callState != Idle {
        return false;
      }
      callState := Outgoing;
      trace := trace + [Outgoing];
      error := None;
      if failure.Some? {
        FailSetup(failure.value);
        return false;
      }
      localStream := Some(stream);
      peer := Some(PeerConnection(None, []));
      sent := sent + [Offer(offerSdp)];
      callState := Connecting;
      trace := trace + [Connecting];
      ok := true;
    }

    /**
     * `acceptCall`: a no-op returning false unless a recipient is set and the call is incoming.
     * Otherwise it moves to `connecting`; on success the fresh connection carries the offer as
     * its remote description and every buffered candidate in buffer order, the buffer is empty
     * and the answer has been sent; on failure it ends in `error`, cleaned up.
     */
    method AcceptCall(offerSdp: string, stream: MediaStream, answerSdp: string, failure: Option<string>) returns (ok: bool)
      requires Valid()
      modifies this
      ensures Valid()
      ensures ok <==> recipient.Some? && old(callState) == Incoming && failure.None?
      ensures !(recipient.Some? && old(callState) == Incoming) ==> unchanged(this)
      ensures recipient.Some? && old(callState) == Incoming && failure.None? ==>
        && callState == Connecting && error.None?
        && localStream == Some(stream) && remoteStream == old(remoteStream)
        && peer == Some(PeerConnection(Some(SessionDescription(OfferType, offerSdp)), old(pending)))
        && pending == [] && processed == old(processed)
        && sent == old(sent) + [Answer(answerSdp)]
        && clearRequests == old(clearRequests) && idleTimers == old(idleTimers)
        && trace == old(trace) + [Connecting]
      ensures recipient.Some? && old(callState) == Incoming && failure.Some? ==>
        && callState == Error && error == Some(SetupError(failure.value)) && CleanedUp()
        && sent == old(sent) && clearRequests == old(clearRequests) && idleTimers == old(idleTimers)
        && trace == old(trace) + [Connecting, Error]
    {
      if recipient.None? || callState != Incoming {
        return false;
      }
      callState := Connecting;
      trace := trace + [Connecting];
      error := None;
      if failure.Some? {
        FailSetup(failure.value);
        return false;
      }
      localStream := Some(stream);
      peer := Some(PeerConnection(None, []));
      var applied: seq<CandidateKey> := [];
      var i := 0;
      while i < |pending|
        invariant 0 <= i <= |pending|
        invariant applied == pending[..i]
      {
        assert pending[..i + 1] == pending[..i] + [pending[i]];
        applied := applied + [pending[i]];
        i := i + 1;
      }
      assert applied == pending;
      peer := Some(PeerConnection(Some(SessionDescription(OfferType, offerSdp)), applied));
      pending := [];
      sent := sent + [Answer(answerSdp)];
      ok := true;
    }

    /** `declineCall`, from any state: back to `idle` with no error, cleaned up, and a clear of the channel requested. */
    method DeclineCall()
      requires Valid()
      modifies this
      ensures Valid()
      ensures callState == Idle && error.None? && CleanedUp()
      ensures clearRequests == old(clearRequests) + (if chatId.Some? then [chatId.value] else [])
      ensures sent == old(sent) && idleTimers == old(idleTimers)
      ensures trace == old(trace) + [Idle]
    {
      callState := Idle;
      trace := trace + [Idle];
      error := None;
      Cleanup();
      if chatId.Some? {
        clearRequests := clearRequests + [chatId.value];
      }
    }

    /**
     * `endCall`, from any state: `ended`, cleaned up, and a clear of the channel requested
     * when a chat id is known. The timer that returns to `idle` is set only after that clear;
     * when the clear fails (`clearFails`) `endCall` stops before setting it.
     */
    method EndCall(clearFails: bool)
      requires Valid()
      modifies this
      ensures Valid()
      ensures callState == Ended && error == old(error) && CleanedUp()
      ensures clearRequests == old(clearRequests) + (if chatId.Some? then [chatId.value] else [])
      ensures sent == old(sent)
      ensures idleTimers == old(idleTimers) + (if chatId.Some? && clearFails then 0 else 1)
      ensures trace == old(trace) + [Ended]
    {
      callState := Ended;
      trace := trace + [Ended];
      Cleanup();
      if chatId.Some? {
        clearRequests := clearRequests + [chatId.value];
        if clearFails {
          return;
        }
      }
      idleTimers := idleTimers + 1;
    }

    /** The timer `endCall` set fires: the call state becomes `idle` whatever it is by then. */
    method IdleTimerFires()
      requires Valid() && idleTimers > 0
      modifies this
      ensures Valid()
      ensures callState == Idle && idleTimers == old(idleTimers) - 1
      ensures error == old(error) && Signals() == old(Signals()).(callState := Idle)
      ensures localStream == old(localStream) && remoteStream == old(remoteStream)
      ensures sent == old(sent) && clearRequests == old(clearRequests)
      ensures trace == old(trace) + [Idle]
    {
      callState := Idle;
      trace := trace + [Idle];
      idleTimers := idleTimers - 1;
    }

    /**
     * `onconnectionstatechange`: `connected` makes the call connected; `failed` and
     * `disconnected` record the connection error and make it `error` (without cleaning up);
     * every other connection state changes nothing.
     */
    method OnConnectionStateChange(link: LinkState)
      requires Valid()
      modifies this
      ensures Valid()
      ensures link == LinkConnected ==> callState == Connected && error == old(error) && trace == old(trace) + [Connected]
      ensures link == LinkFailed || link == LinkDisconnected ==>
        callState == Error && error == Some(ConnectionError) && trace == old(trace) + [Error]
      ensures link != LinkConnected && link != LinkFailed && link != LinkDisconnected ==> unchanged(this)
      ensures peer == old(peer) && pending == old(pending) && processed == old(processed)
      ensures localStream == old(localStream) && remoteStream == old(remoteStream)
      ensures sent == old(sent) && clearRequests == old(clearRequests) && idleTimers == old(idleTimers)
    {
      if link == LinkConnected {
        callState := Connected;
        trace := trace + [Connected];
      } else if link == LinkFailed || link == LinkDisconnected {
        error := Some(ConnectionError);
        callState := Error;
        trace := trace + [Error];
      }
    }

    /** `onicecandidate`: a discovered candidate is sent to the recipient, if there is one. */
    method OnIceCandidate(candidate: Option<CandidateKey>)
      requires Valid()
      modifies this
      ensures Valid()
      ensures sent == old(sent) + (if candidate.Some? && recipient.Some? then [Candidate(candidate.value)] else [])
      ensures callState == old(callState) && error == old(error) && Signals() == old(Signals())
      ensures localStream == old(localStream) && remoteStream == old(remoteStream)
      ensures clearRequests == old(clearRequests) && idleTimers == old(idleTimers) && trace == old(trace)
    {
      if candidate.Some? && recipient.Some? {
        sent := sent + [Candidate(candidate.value)];
      }
    }

    /** `ontrack`: the event's first stream, if it has one, becomes the remote stream. */
    method OnTrack(streams: seq<MediaStream>)
      requires Valid()
      modifies this
      ensures Valid()
      ensures remoteStream == if streams != [] then Some(streams[0]) else old(remoteStream)
      ensures callState == old(callState) && error == old(error) && Signals() == old(Signals())
      ensures localStream == old(localStream) && sent == old(sent)
      ensures clearRequests == old(clearRequests) && idleTimers == old(idleTimers) && trace == old(trace)
    {
      if streams != [] {
        remoteStream := Some(streams[0]);
      }
    }

    /**
     * One iteration of the signaling effect's loop: an offer seen from `idle` makes the call
     * incoming with an empty buffer; an answer seen while `connecting` is set on a live
     * connection; a new candidate is marked processed, then added, buffered or dropped.
     */
    method HandleSignalingMessage(data: Payload, snapshot: CallState, accepted: bool)
      requires Valid()
      modifies this
      ensures Valid()
      ensures Signals() == HandleMessage(old(Signals()), snapshot, data, accepted)
      ensures error == old(error) && localStream == old(localStream) && remoteStream == old(remoteStream)
      ensures sent == old(sent) && clearRequests == old(clearRequests) && idleTimers == old(idleTimers)
      ensures trace == old(trace) + if snapshot == Idle && data.Offer? then [Incoming] else []
    {
      match data {
        case Offer(_) =>
          if snapshot == Idle {
            callState := Incoming;
            trace := trace + [Incoming];
            pending := [];
          }
        case Answer(sdp) =>
          if snapshot == Connecting && peer.Some? && accepted {
            peer := Some(peer.value.(remoteDescription := Some(SessionDescription(AnswerType, sdp))));
          }
        case Candidate(key) =>
          if key !in processed {
            processed := processed + {key};
            if accepted && peer.Some? {
              if peer.value.remoteDescription.Some? {
                peer := Some(peer.value.(applied := peer.value.applied + [key]));
              } else {
                pending := pending + [key];
              }
            }
          }
        case Malformed =>
      }
      HandleMessageKeepsCandidatesOnce(old(Signals()), snapshot, data, accepted);
    }

    /**
     * The signaling effect: the batch is handled message by message against the call state
     * the effect saw, as `HandleBatch` specifies; nothing outside the negotiation changes.
     */
    method ProcessMessages(batch: seq<SignalingMessage>, accepted: seq<bool>)
      requires Valid()
      requires |accepted| == |batch|
      modifies this
      ensures Valid()
      ensures Signals() == HandleBatch(old(Signals()), old(callState), batch, accepted)
      ensures error == old(error) && localStream == old(localStream) && remoteStream == old(remoteStream)
      ensures sent == old(sent) && clearRequests == old(clearRequests) && idleTimers == old(idleTimers)
      ensures trace == old(trace) + BatchTrace(old(callState), batch)
    {
      if batch == [] {
        return;
      }
      var snapshot := callState;
      ghost var start := Signals();
      var i := 0;
      while i < |batch|
        invariant 0 <= i <= |batch|
        invariant Valid()
        invariant Signals() == HandleBatch(start, snapshot, batch[..i], accepted[..i])
        invariant trace == old(trace) + BatchTrace(snapshot, batch[..i])
        invariant error == old(error) && localStream == old(localStream) && remoteStream == old(remoteStream)
        invariant sent == old(sent) && clearRequests == old(clearRequests) && idleTimers == old(idleTimers)
      {
        assert batch[..i + 1][..i] == batch[..i] && accepted[..i + 1][..i] == accepted[..i];
        assert batch[..i + 1][i] == batch[i] && accepted[..i + 1][i] == accepted[i];
        HandleSignalingMessage(batch[i].signalingData, snapshot, accepted[i]);
        i := i + 1;
      }
      assert batch[..i] == batch && accepted[..i] == accepted;
    }
  }

  /**
   * The caller's side of a call from "aaaa" to "bbbb": it sends the offer, applies the
   * callee's answer while `connecting`, sends its own candidate and reaches `connected`.
   */
  method CallerSide() returns (state: CallState, sent: seq<Payload>, remote: Option<SessionDescription>)
    ensures state == Connected
    ensures sent == [Offer("offer-sdp"), Candidate("candidate-a")]
    ensures remote == Some(SessionDescription(AnswerType, "answer-sdp"))
  {
    var caller := new VideoCallSession(Some("bbbb"), Some(ComputeChatId("aaaa", "bbbb")));
    var started := caller.StartCall(MediaStream(1), "offer-sdp", None);
    assert caller.Signals() == Negotiation(Connecting, Some(PeerConnection(None, [])), [], {});
    var answer := SignalingMessage(Answer("answer-sdp"), "bbbb", 2);
    HandleBatchSingle(caller.Signals(), Connecting, answer, true);
    caller.ProcessMessages([answer], [true]);
    caller.OnIceCandidate(Some("candidate-a"));
    caller.OnConnectionStateChange(LinkConnected);
    state, sent, remote := caller.callState, caller.sent, caller.peer.value.remoteDescription;
  }

  /**
   * The callee's side: the offer makes it `incoming`, accepting sends the answer, the
   * caller's candidate is added to the connection, and it reaches `connected`.
   */
  method CalleeSide() returns (state: CallState, sent: seq<Payload>, applied: seq<CandidateKey>)
    ensures state == Connected
    ensures sent == [Answer("answer-sdp")]
    ensures applied == ["candidate-a"]
  {
    var callee := new VideoCallSession(Some("aaaa"), Some(ComputeChatId("bbbb", "aaaa")));
    var offer := SignalingMessage(Offer("offer-sdp"), "aaaa", 1);
    HandleBatchSingle(callee.Signals(), Idle, offer, true);
    callee.ProcessMessages([offer], [true]);
    assert callee.Signals() == Negotiation(Incoming, None, [], {});
    var accepted := callee.AcceptCall("offer-sdp", MediaStream(2), "answer-sdp", None);
    var remote := Some(SessionDescription(OfferType, "offer-sdp"));
    assert callee.Signals() == Negotiation(Connecting, Some(PeerConnection(remote, [])), [], {});
    var candidate := SignalingMessage(Candidate("candidate-a"), "aaaa", 3);
    HandleBatchSingle(callee.Signals(), Connecting, candidate, true);
    assert [] + ["candidate-a"] == ["candidate-a"];
    callee.ProcessMessages([candidate], [true]);
    callee.OnConnectionStateChange(LinkConnected);
    state, sent, applied := callee.callState, callee.sent, callee.peer.value.applied;
  }

  /** A caller denied the camera ends in `error` with the permission error, holding no stream or connection. */
  method PermissionDeniedCall() returns (state: CallState, err: Option<VideoCallError>, holdsMedia: bool)
    ensures state == Error && err == Some(VideoCallError(Permission, CallPermissionDenied)) && !holdsMedia
  {
    var caller := new VideoCallSession(Some("bbbb"), Some(ComputeChatId("aaaa", "bbbb")));
    var started := caller.StartCall(MediaStream(1), "offer-sdp", Some("NotAllowedError"));
    state, err := caller.callState, caller.error;
    holdsMedia := caller.localStream.Some? || caller.peer.Some?;
  }

  /** Ending a connected call shows `ended` with both streams released, then `idle` once the timer fires. */
  method EndConnectedCall() returns (endedState: CallState, streamsAfterEnd: bool, finalState: CallState)
    ensures endedState == Ended && !streamsAfterEnd && finalState == Idle
  {
    var caller := new VideoCallSession(Some("bbbb"), Some(ComputeChatId("aaaa", "bbbb")));
    var started := caller.StartCall(MediaStream(1), "offer-sdp", None);
    caller.OnTrack([MediaStream(2)]);
    caller.OnConnectionStateChange(LinkConnected);
    caller.EndCall(false);
    endedState := caller.callState;
    streamsAfterEnd := caller.localStream.Some? || caller.remoteStream.Some?;
    caller.IdleTimerFires();
    finalState := caller.callState;
  }

  /**
   * When the channel clear of `endCall` fails, no timer is set: the call stays `ended`, and a
   * new call cannot start, since `startCall` needs `idle`.
   */
  method EndCallWithFailedClear() returns (endedState: CallState, timers: nat, restarted: bool, finalState: CallState)
    ensures endedState == Ended && timers == 0 && !restarted && finalState == Ended
  {
    var caller := new VideoCallSession(Some("bbbb"), Some(ComputeChatId("aaaa", "bbbb")));
    var started := caller.StartCall(MediaStream(1), "offer-sdp", None);
    caller.OnConnectionStateChange(LinkConnected);
    caller.EndCall(true);
    endedState, timers := caller.callState, caller.idleTimers;
    restarted := caller.StartCall(MediaStream(3), "second-offer-sdp", None);
    finalState := caller.callState;
  }
}
