/**
 * The values of the video-call hook and the specification of how one batch of
 * polled signaling messages changes the negotiation: offers and answers gated by
 * the call state seen when the batch arrived, candidates de-duplicated by their
 * serialised form and then applied, buffered or dropped.
 */
module CallSignaling {
  import opened Wrappers
  import opened ChatIdentity

  datatype CallState = Idle | Outgoing | Incoming | Connecting | Connected | Ended | Error

  datatype ErrorKind = Permission | Connection | Signaling | Unknown

  /** The translation keys the hook reports errors with. */
  datatype MessageKey = CallPermissionDenied | CallConnectionError | CallGenericError

  datatype VideoCallError = VideoCallError(kind: ErrorKind, messageKey: MessageKey)

  /** The browser's `RTCPeerConnection.connectionState`. */
  datatype LinkState = LinkNew | LinkConnecting | LinkConnected | LinkDisconnected | LinkFailed | LinkClosed

  const ConnectionError: VideoCallError := VideoCallError(Connection, CallConnectionError)

  /** The error records the hook ever stores: the `signaling` kind is declared but never raised. */
  predicate IsRaisedError(e: VideoCallError) {
    e == VideoCallError(Permission, CallPermissionDenied) ||
    e == ConnectionError ||
    e == VideoCallError(Unknown, CallGenericError)
  }

  predicate IsPermissionDenial(name: string) {
    name == "NotAllowedError" || name == "PermissionDeniedError"
  }

  /** The error a failed `startCall` / `acceptCall` records, from the thrown error's name. */
  function SetupError(name: string): (e: VideoCallError)
    ensures IsRaisedError(e) && e.kind != Connection && e.kind != Signaling
    ensures e.kind == Permission <==> IsPermissionDenial(name)
  {
    if IsPermissionDenial(name) then VideoCallError(Permission, CallPermissionDenied)
    else VideoCallError(Unknown, CallGenericError)
  }

  /** Polling runs only while a call is being set up: never when idle, connected or over. */
  function ShouldPoll(s: CallState): (poll: bool)
    ensures poll <==> s != Idle && s != Connected && s != Ended && s != Error
  {
    s == Outgoing || s == Incoming || s == Connecting
  }

  /** An ICE candidate, identified by `JSON.stringify` of its descriptor. */
  type CandidateKey = string

  datatype SdpKind = OfferType | AnswerType

  datatype SessionDescription = SessionDescription(kind: SdpKind, sdp: string)

  /** What the hook has done to its peer connection: the remote description set and the candidates added, in order. */
  datatype PeerConnection = PeerConnection(remoteDescription: Option<SessionDescription>, applied: seq<CandidateKey>)

  /** The parsed `signalingData`; `Malformed` stands for text that does not parse as a known payload. */
  datatype Payload = Offer(sdp: string) | Answer(sdp: string) | Candidate(key: CandidateKey) | Malformed

  datatype SignalingMessage = SignalingMessage(signalingData: Payload, sender: Principal, timestamp: int)

  /** The part of the hook's state the message handling reads and writes. */
  datatype Negotiation = Negotiation(
    callState: CallState,
    peer: Option<PeerConnection>,
    pending: seq<CandidateKey>,
    processed: set<CandidateKey>)

  function Applied(n: Negotiation): seq<CandidateKey> {
    if n.peer.Some? then n.peer.value.applied else []
  }

  predicate Distinct(s: seq<CandidateKey>) {
    forall i, j :: 0 <= i < j < |s| ==> s[i] != s[j]
  }

  /**
   * Every candidate reaches the connection at most once: applied and buffered candidates
   * are pairwise different and already marked processed, and buffered ones have a connection.
   */
  predicate CandidatesOnce(n: Negotiation) {
    && Distinct(Applied(n))
    && Distinct(n.pending)
    && (forall k :: k in Applied(n) ==> k !in n.pending && k in n.processed)
    && (forall k :: k in n.pending ==> k in n.processed)
    && (n.pending != [] ==> n.peer.Some?)
  }

  /** Appending a key not yet present keeps a sequence free of repeats. */
  lemma AppendFresh(s: seq<CandidateKey>, k: CandidateKey)
    ensures Distinct(s) && k !in s ==> Distinct(s + [k])
  {
    if Distinct(s) && k !in s {
      var t := s + [k];
      forall i, j | 0 <= i < j < |t| ensures t[i] != t[j] {
        if j == |s| {
          assert t[i] == s[i];
        } else {
          assert t[i] == s[i] && t[j] == s[j];
        }
      }
    }
  }

  /**
   * One message of a batch. `snapshot` is the call state when the batch arrived;
   * `accepted` says whether the browser accepted what the message asks of it
   * (building and adding a candidate, setting an answer); a refused message is skipped.
   */
  function HandleMessage(n: Negotiation, snapshot: CallState, p: Payload, accepted: bool): (r: Negotiation)
    ensures n.processed <= r.processed
    ensures r.callState == n.callState || (snapshot == Idle && r.callState == Incoming)
  {
    match p
    case Offer(_) =>
      if snapshot == Idle then n.(callState := Incoming, pending := []) else n
    case Answer(sdp) =>
      if snapshot == Connecting && n.peer.Some? && accepted then
        n.(peer := Some(n.peer.value.(remoteDescription := Some(SessionDescription(AnswerType, sdp)))))
      else n
    case Candidate(k) =>
      if k in n.processed then n
      else
        var marked := n.(processed := n.processed + {k});
        if !accepted || n.peer.None? then marked
        else if n.peer.value.remoteDescription.Some? then
          marked.(peer := Some(n.peer.value.(applied := n.peer.value.applied + [k])))
        else
          marked.(pending := n.pending + [k])
    case Malformed => n
  }

  /** Handling one message never lets a candidate reach the connection twice. */
  lemma HandleMessageKeepsCandidatesOnce(n: Negotiation, snapshot: CallState, p: Payload, accepted: bool)
    requires CandidatesOnce(n)
    ensures CandidatesOnce(HandleMessage(n, snapshot, p, accepted))
  {
    if p.Candidate? && p.key !in n.processed && accepted && n.peer.Some? {
      AppendFresh(Applied(n), p.key);
      AppendFresh(n.pending, p.key);
    }
  }

  /** The messages of a batch, handled in order against the same snapshot; a skipped one does not stop the rest. */
  function HandleBatch(n: Negotiation, snapshot: CallState, msgs: seq<SignalingMessage>, accepted: seq<bool>): (r: Negotiation)
    requires |accepted| == |msgs|
    ensures n.processed <= r.processed
    ensures r.callState == n.callState || (snapshot == Idle && r.callState == Incoming)
    decreases |msgs|
  {
    if msgs == [] then n
    else
      var last := |msgs| - 1;
      HandleMessage(HandleBatch(n, snapshot, msgs[..last], accepted[..last]), snapshot, msgs[last].signalingData, accepted[last])
  }

  /** Handling a batch never lets a candidate reach the connection twice. */
  lemma {:induction false} HandleBatchKeepsCandidatesOnce(n: Negotiation, snapshot: CallState, msgs: seq<SignalingMessage>, accepted: seq<bool>)
    requires |accepted| == |msgs|
    requires CandidatesOnce(n)
    ensures CandidatesOnce(HandleBatch(n, snapshot, msgs, accepted))
    decreases |msgs|
  {
    if msgs != [] {
      var last := |msgs| - 1;
      HandleBatchKeepsCandidatesOnce(n, snapshot, msgs[..last], accepted[..last]);
      HandleMessageKeepsCandidatesOnce(HandleBatch(n, snapshot, msgs[..last], accepted[..last]), snapshot, msgs[last].signalingData, accepted[last]);
    }
  }

  /** The call states a batch passes to `setCallState`: `incoming` once per offer seen from `idle`. */
  function BatchTrace(snapshot: CallState, msgs: seq<SignalingMessage>): (t: seq<CallState>)
    ensures forall i :: 0 <= i < |t| ==> t[i] == Incoming
    ensures snapshot != Idle ==> t == []
  {
    if msgs == [] then []
    else
      var last := |msgs| - 1;
      BatchTrace(snapshot, msgs[..last]) + if snapshot == Idle && msgs[last].signalingData.Offer? then [Incoming] else []
  }

  /** A batch of one message is that message handled on its own. */
  lemma HandleBatchSingle(n: Negotiation, snapshot: CallState, m: SignalingMessage, accepted: bool)
    ensures HandleBatch(n, snapshot, [m], [accepted]) == HandleMessage(n, snapshot, m.signalingData, accepted)
  {
    assert [m][..0] == [] && [accepted][..0] == [];
  }

  /** Handling two batches with one snapshot is handling their concatenation. */
  lemma {:induction false} HandleBatchAppend(n: Negotiation, snapshot: CallState, a: seq<SignalingMessage>, oa: seq<bool>, b: seq<SignalingMessage>, ob: seq<bool>)
    requires |oa| == |a| && |ob| == |b|
    ensures HandleBatch(n, snapshot, a + b, oa + ob) == HandleBatch(HandleBatch(n, snapshot, a, oa), snapshot, b, ob)
    decreases |b|
  {
    if b == [] {
      assert a + b == a && oa + ob == oa;
    } else {
      var last := |b| - 1;
      var ab, oab := a + b, oa + ob;
      HandleBatchAppend(n, snapshot, a, oa, b[..last], ob[..last]);
      assert ab[..|ab| - 1] == a + b[..last];
      assert oab[..|oab| - 1] == oa + ob[..last];
      assert ab[|ab| - 1] == b[last] && oab[|oab| - 1] == ob[last];
      var mid := HandleBatch(n, snapshot, a + b[..last], oa + ob[..last]);
      assert HandleBatch(n, snapshot, ab, oab) == HandleMessage(mid, snapshot, b[last].signalingData, ob[last]);
    }
  }

  /** A candidate key seen before changes nothing, so a redelivered candidate is never applied or buffered twice. */
  lemma DuplicateCandidateIgnored(n: Negotiation, snapshot: CallState, k: CandidateKey, accepted: bool)
    requires k in n.processed
    ensures HandleMessage(n, snapshot, Candidate(k), accepted) == n
  {
  }

  /**
   * Where a new candidate goes: it is marked processed in every case, then added to the
   * connection if that has a remote description, buffered if the connection has none,
   * and dropped if there is no connection or the browser refused it.
   */
  lemma CandidateRouting(n: Negotiation, snapshot: CallState, k: CandidateKey, accepted: bool)
    requires k !in n.processed
    ensures var r := HandleMessage(n, snapshot, Candidate(k), accepted);
      && r.processed == n.processed + {k}
      && r.callState == n.callState
      && (accepted && n.peer.Some? && n.peer.value.remoteDescription.Some? ==>
            r.peer == Some(n.peer.value.(applied := n.peer.value.applied + [k])) && r.pending == n.pending)
      && (accepted && n.peer.Some? && n.peer.value.remoteDescription.None? ==>
            r.peer == n.peer && r.pending == n.pending + [k])
      && (!accepted || n.peer.None? ==> r.peer == n.peer && r.pending == n.pending)
  {
  }

  /** Every candidate of a handled batch is marked processed afterwards. */
  lemma {:induction false} BatchMarksCandidates(n: Negotiation, snapshot: CallState, msgs: seq<SignalingMessage>, accepted: seq<bool>)
    requires |accepted| == |msgs|
    ensures forall i :: 0 <= i < |msgs| && msgs[i].signalingData.Candidate? ==>
              msgs[i].signalingData.key in HandleBatch(n, snapshot, msgs, accepted).processed
    decreases |msgs|
  {
    if msgs != [] {
      var last := |msgs| - 1;
      BatchMarksCandidates(n, snapshot, msgs[..last], accepted[..last]);
      forall i | 0 <= i < last && msgs[i].signalingData.Candidate?
        ensures msgs[i].signalingData.key in HandleBatch(n, snapshot, msgs, accepted).processed
      {
        assert msgs[..last][i] == msgs[i];
      }
    }
  }

  /** A batch whose keys are all processed already is a no-op. */
  lemma {:induction false} ProcessedCandidatesIgnored(n: Negotiation, snapshot: CallState, msgs: seq<SignalingMessage>, accepted: seq<bool>)
    requires |accepted| == |msgs|
    requires forall i :: 0 <= i < |msgs| ==> msgs[i].signalingData.Candidate? && msgs[i].signalingData.key in n.processed
    ensures HandleBatch(n, snapshot, msgs, accepted) == n
    decreases |msgs|
  {
    if msgs != [] {
      var last := |msgs| - 1;
      ProcessedCandidatesIgnored(n, snapshot, msgs[..last], accepted[..last]);
    }
  }

  /** Polling is not exactly-once: seeing a batch of candidates again, with any outcomes, changes nothing. */
  lemma CandidateBatchRedelivered(n: Negotiation, snapshot: CallState, msgs: seq<SignalingMessage>, accepted: seq<bool>, again: CallState, acceptedAgain: seq<bool>)
    requires |accepted| == |msgs| && |acceptedAgain| == |msgs|
    requires forall i :: 0 <= i < |msgs| ==> msgs[i].signalingData.Candidate?
    ensures var r := HandleBatch(n, snapshot, msgs, accepted);
      HandleBatch(r, again, msgs, acceptedAgain) == r
  {
    BatchMarksCandidates(n, snapshot, msgs, accepted);
    ProcessedCandidatesIgnored(HandleBatch(n, snapshot, msgs, accepted), again, msgs, acceptedAgain);
  }

  /**
   * Against a snapshot other than `idle`, a batch whose candidates are all processed can
   * change only the remote description, through an answer the browser accepts: the call
   * state, the buffer, the processed set and the added candidates stay, and with every
   * answer refused the batch is a no-op.
   */
  lemma {:induction false} ProcessedBatchOnlyReanswers(n: Negotiation, snapshot: CallState, msgs: seq<SignalingMessage>, accepted: seq<bool>)
    requires |accepted| == |msgs|
    requires snapshot != Idle
    requires forall i :: 0 <= i < |msgs| && msgs[i].signalingData.Candidate? ==> msgs[i].signalingData.key in n.processed
    ensures var r := HandleBatch(n, snapshot, msgs, accepted);
      && r.callState == n.callState && r.pending == n.pending && r.processed == n.processed
      && Applied(r) == Applied(n) && r.peer.Some? == n.peer.Some?
      && ((forall i :: 0 <= i < |msgs| && msgs[i].signalingData.Answer? ==> !accepted[i]) ==> r == n)
    decreases |msgs|
  {
    if msgs != [] {
      var last := |msgs| - 1;
      var front, frontAccepted := msgs[..last], accepted[..last];
      assert forall i :: 0 <= i < last ==> front[i] == msgs[i] && frontAccepted[i] == accepted[i];
      ProcessedBatchOnlyReanswers(n, snapshot, front, frontAccepted);
    }
  }

  /**
   * Each poll returns the whole channel again, offers and answers included. Handled a second
   * time against a state other than `idle`, a batch repeats nothing but its answers; when the
   * browser refuses every repeated answer, the redelivery changes nothing.
   */
  lemma BatchRedelivered(n: Negotiation, snapshot: CallState, msgs: seq<SignalingMessage>, accepted: seq<bool>, again: CallState, acceptedAgain: seq<bool>)
    requires |accepted| == |msgs| && |acceptedAgain| == |msgs|
    requires again != Idle
    ensures var r := HandleBatch(n, snapshot, msgs, accepted);
      var r2 := HandleBatch(r, again, msgs, acceptedAgain);
      && r2.callState == r.callState && r2.pending == r.pending && r2.processed == r.processed
      && Applied(r2) == Applied(r) && r2.peer.Some? == r.peer.Some?
      && ((forall i :: 0 <= i < |msgs| && msgs[i].signalingData.Answer? ==> !acceptedAgain[i]) ==> r2 == r)
  {
    BatchMarksCandidates(n, snapshot, msgs, accepted);
    ProcessedBatchOnlyReanswers(HandleBatch(n, snapshot, msgs, accepted), again, msgs, acceptedAgain);
  }

  /**
   * An offer acts only on a batch seen in `idle`, a state in which the hook does not poll;
   * it then moves to `incoming` and empties the buffer.
   */
  lemma OfferOnlyWhilePollingOff(n: Negotiation, snapshot: CallState, sdp: string, accepted: bool)
    ensures var r := HandleMessage(n, snapshot, Offer(sdp), accepted);
      && (r != n ==> !ShouldPoll(snapshot))
      && (snapshot == Idle ==> r == n.(callState := Incoming, pending := []))
      && (snapshot != Idle ==> r == n)
  {
  }

  /**
   * An answer is applied only to a live connection of a call that was `connecting`; it then
   * becomes the remote description and nothing else changes. Otherwise it is ignored.
   */
  lemma AnswerOnlyWhileConnecting(n: Negotiation, snapshot: CallState, sdp: string, accepted: bool)
    ensures var r := HandleMessage(n, snapshot, Answer(sdp), accepted);
      && r.callState == n.callState && r.pending == n.pending && r.processed == n.processed
      && (r.peer != n.peer <==> snapshot == Connecting && n.peer.Some? && accepted &&
                                n.peer.value.remoteDescription != Some(SessionDescription(AnswerType, sdp)))
      && (r.peer != n.peer ==>
            r.peer == Some(n.peer.value.(remoteDescription := Some(SessionDescription(AnswerType, sdp)))))
  {
  }

  /**
   * As written, the caller never drains its buffer: a candidate that arrives before the
   * answer stays buffered after the answer is set, and is never added to the connection.
   */
  lemma CandidateBeforeAnswerStaysBuffered(k: CandidateKey, sdp: string)
    ensures var n := Negotiation(Connecting, Some(PeerConnection(None, [])), [], {});
      var msgs := [SignalingMessage(Candidate(k), "callee", 1), SignalingMessage(Answer(sdp), "callee", 2)];
      var r := HandleBatch(n, Connecting, msgs, [true, true]);
      r.peer == Some(PeerConnection(Some(SessionDescription(AnswerType, sdp)), [])) && r.pending == [k]
  {
    var n := Negotiation(Connecting, Some(PeerConnection(None, [])), [], {});
    var msgs := [SignalingMessage(Candidate(k), "callee", 1), SignalingMessage(Answer(sdp), "callee", 2)];
    var accepted := [true, true];
    assert msgs[..1][..0] == [] && accepted[..1][..0] == [];
    assert msgs[..1][0] == msgs[0] && accepted[..1][0] == true;
    assert HandleBatch(n, Connecting, [], []) == n;
    var first := HandleBatch(n, Connecting, msgs[..1], accepted[..1]);
    assert first == HandleMessage(n, Connecting, Candidate(k), true);
    assert first == Negotiation(Connecting, Some(PeerConnection(None, [])), [k], {k});
  }

  /**
   * As written, a candidate that arrives with the offer, before the call is accepted and so
   * before any connection exists, is marked processed and dropped, and later copies of it are ignored.
   */
  lemma CandidateWithOfferDropped(k: CandidateKey, sdp: string)
    ensures var n := Negotiation(Idle, None, [], {});
      var msgs := [SignalingMessage(Offer(sdp), "caller", 1), SignalingMessage(Candidate(k), "caller", 2)];
      var r := HandleBatch(n, Idle, msgs, [true, true]);
      && r == Negotiation(Incoming, None, [], {k})
      && HandleMessage(r, Incoming, Candidate(k), true) == r
  {
    var n := Negotiation(Idle, None, [], {});
    var msgs := [SignalingMessage(Offer(sdp), "caller", 1), SignalingMessage(Candidate(k), "caller", 2)];
    var accepted := [true, true];
    assert msgs[..1][..0] == [] && accepted[..1][..0] == [];
    assert msgs[..1][0] == msgs[0] && accepted[..1][0] == true;
    assert HandleBatch(n, Idle, [], []) == n;
    var first := HandleBatch(n, Idle, msgs[..1], accepted[..1]);
    assert first == HandleMessage(n, Idle, Offer(sdp), true);
    assert first == Negotiation(Incoming, None, [], {});
  }
}
