# bhetghat call, chat-id, profile-form and pending-phone logic in Dafny

This project models the logic core of the bhetghat dating app's web front end:

- **Video-call negotiation** (`useVideoCall.ts`). The hook is modelled as the class
  `VideoCallHook.VideoCallSession`. Its fields are the call state, the error record, the two
  media streams, the peer connection, the pending-candidate buffer and the processed-candidate
  set. Methods model `startCall`, `acceptCall`, `declineCall`, `endCall`, `cleanup`, the peer
  connection's callbacks and the signaling effect's loop over a polled batch.
  The loop is proved equal to a pure specification, `CallSignaling.HandleBatch`: a fold of
  `CallSignaling.HandleMessage` over the batch against the call state seen when the batch
  arrived. The lemmas about the fold state the dedup and buffering rules. The invariant
  `CandidatesOnce` says that no candidate reaches the connection twice, and every operation
  keeps it.
- **Chat-id canonicalisation** (`chatId.ts`), in `ChatIdentity`. Principals are compared by
  their text with JavaScript's lexicographic `<`, written out as `TextLess`.
- **Profile form data logic** (`Profile.tsx`), in `ProfileForm`. This covers:
  - the comma-list parser used on submit (`split(',')`, then `trim`, then dropping empties);
  - the `join(', ')` used when a profile loads;
  - the `||` / `??` defaults of `handleSubmit`;
  - the age input's `parseInt(...) || 18` fallback.

  The JavaScript string built-ins these rely on are written out in `JsStrings`: `split` on one
  character, `trim`, `join` and decimal `parseInt`.
- **Pending phone-number reconciliation** (`usePendingPhoneNumber.ts`), in `PendingPhone`.
  The local-storage key is the one field of the class `PendingPhoneStore`. The reconcile
  step's choice of save is the function `SaveRequest`.

Browser and backend effects are parameters:
- the stream `getUserMedia` yields and the SDP text the browser generates;
- the name of the error a setup step threw (`failure`);
- whether the browser accepted each signaling message (`accepted`);
- whether the profile save succeeded.

Payloads handed to the signaling transport are recorded in `sent`, and channel clears in
`clearRequests`. The values passed to `setCallState` are recorded in the ghost `trace`.

Behaviour kept as the code has it (a call engine might be expected to do otherwise):
- One might expect buffered candidates to be added once the remote description is set.
  Setting the caller's remote description from an answer does not drain the candidate buffer.
  A candidate buffered before the answer is never added (`CallSignaling.CandidateBeforeAnswerStaysBuffered`).
- One might expect early candidates to be kept until a connection exists.
  A candidate that arrives before any connection exists is marked processed and then dropped.
  This includes a candidate that arrives with the offer, before the call is accepted
  (`CallSignaling.CandidateWithOfferDropped`).
- One might expect the hook to retain the offer it received. It does not: `acceptCall` takes
  the offer's SDP as an argument.
- One might expect every failure to release the call's resources. A connection failure moves
  to `error` without cleaning up, so the connection and the streams stay.
- One might expect every declared error kind to be reported. The `signaling` kind is declared
  but never recorded (`VideoCallHook.VideoCallSession.Valid`).
- One might expect an ended call always to return to `idle`. The timer that does so is set
  only after the channel clear of `endCall` succeeds. When the clear fails the call stays
  `ended`, and `startCall` refuses to run (`VideoCallHook.EndCallWithFailedClear`).
- One might expect the callee to learn of an offer while polling. An offer acts only on a batch
  seen in `idle`, and the hook does not poll in `idle` (`CallSignaling.OfferOnlyWhilePollingOff`).
  The callee path therefore needs the transport hook to deliver a batch while polling is
  disabled. `ProcessMessages` takes a batch in any state; it is not gated by `ShouldPoll`
  (`VideoCallHook.CalleeSide`).
- One might expect that timer to affect only the call it ended. When it fires, it sets `idle`
  whatever the state is, including a call started in the meantime.

## Model

| member | source | states |
|---|---|---|
| ChatIdentity.TextLessIrreflexive | src/frontend/src/utils/chatId.ts:9 | No text is smaller than itself under JavaScript's string `<`. |
| ChatIdentity.TextLessAsymmetric | src/frontend/src/utils/chatId.ts:9 | The string `<` never holds both ways. |
| ChatIdentity.TextLessTotal | src/frontend/src/utils/chatId.ts:9 | Two different texts are ordered one way or the other. |
| ChatIdentity.TextLessTransitive | src/frontend/src/utils/chatId.ts:9 | The string `<` is transitive. |
| ChatIdentity.ComputeChatId | src/frontend/src/utils/chatId.ts:4-14 | The pair is a permutation of the two principals, and `user1`'s text is not greater than `user2`'s. The result is `(p1, p2)` exactly when p1's text is smaller; otherwise, ties included, it is `(p2, p1)`. |
| ChatIdentity.ComputeChatIdCommutative | src/frontend/src/utils/chatId.ts:9-13 | Both participants compute the same chat id, whichever argument order they use. |
| ChatIdentity.ComputeChatIdIdempotent | src/frontend/src/utils/chatId.ts:4-14 | Recomputing from a result's own `(user1, user2)` gives the same result. |
| ChatIdentity.ComputeChatIdExample | src/frontend/src/utils/chatId.ts:9-13 | "aaaa" and "bbbb" give `("aaaa", "bbbb")` in either order. |
| JsStrings.Trim | src/frontend/src/pages/Profile.tsx:71 | `trim()` gives a slice of its input with only white space before and after it. The slice has no white space at either end, and an already trimmed string is kept. |
| JsStrings.Split | src/frontend/src/pages/Profile.tsx:71 | `split(',')` gives at least one piece, no piece contains the separator, and joining the pieces with the separator gives back the input. |
| JsStrings.SplitJoin | src/frontend/src/pages/Profile.tsx:53 | Splitting the join of separator-free texts gives back those texts. |
| JsStrings.ParseInt | src/frontend/src/pages/Profile.tsx:156 | `parseInt` yields a number exactly when a digit follows the leading white space and at most one sign. A negative result needs a `-` in the text. |
| JsStrings.ParseIntDecimal | src/frontend/src/pages/Profile.tsx:156 | `parseInt` of the decimal text of a natural number up to 2^53 is that number. |
| ProfileForm.TrimEach | src/frontend/src/pages/Profile.tsx:71 | `.map(s => s.trim())` trims each piece and keeps length and positions. |
| ProfileForm.DropEmpty | src/frontend/src/pages/Profile.tsx:71 | `.filter(Boolean)` keeps every non-empty text as often as it occurs, and no empty one, in the original order. |
| ProfileForm.ParseList | src/frontend/src/pages/Profile.tsx:71-74 | Every parsed element is non-empty, trimmed and comma-free. The elements are the non-empty trimmed pieces of the input, each as often as it occurs, in input order. |
| ProfileForm.ShowList | src/frontend/src/pages/Profile.tsx:53-55 | An empty list shows as empty text. Splitting the shown text of comma-free items on ',' gives the first item, then every later item behind a single space. |
| ProfileForm.ParseShownList | src/frontend/src/pages/Profile.tsx:53-74 | Parsing the `", "`-join of a list of non-empty, trimmed, comma-free texts gives back that list. |
| ProfileForm.ParseListIdempotent | src/frontend/src/pages/Profile.tsx:53-74 | Showing a parsed list and parsing it again changes nothing. |
| ProfileForm.AgeOrDefault | src/frontend/src/pages/Profile.tsx:65 | The age is never 0. It is 18 exactly when the given age is missing, 0 or 18, and any other given age is kept. |
| ProfileForm.AgeFromInput | src/frontend/src/pages/Profile.tsx:156 | The age input never yields 0, and text that does not parse as a number yields 18. |
| ProfileForm.AgeFromInputDecimal | src/frontend/src/pages/Profile.tsx:156 | A positive number up to 2^53, typed in decimal, becomes the age. |
| ProfileForm.Submit | src/frontend/src/pages/Profile.tsx:62-86 | Each of the three lists is `ParseList` of its own text input, so it holds the input's non-empty trimmed items in order. The age is `AgeOrDefault` of the draft's age: kept when given and non-zero, 18 otherwise. `isVisible` is false only for an explicit false, and `hasVideoChatEnabled` is true only for an explicit true. Missing preferences become all three genders, ages 18-99 and distance 0-100. |
| ProfileForm.Load | src/frontend/src/pages/Profile.tsx:50-56 | The form's draft holds every one of the loaded profile's fourteen fields. Each of the three list inputs parses back to the profile's list when that list is editable. |
| ProfileForm.LoadSubmitRoundTrip | src/frontend/src/pages/Profile.tsx:52-86 | Loading a profile whose age is non-zero and whose lists are editable, then submitting unchanged, saves that same profile. |
| ProfileForm.SubmitIsStable | src/frontend/src/pages/Profile.tsx:52-86 | Submitting, reloading the saved profile and submitting again saves the same profile. |
| PendingPhone.SaveRequest | src/frontend/src/hooks/usePendingPhoneNumber.ts:12-24 | A save is issued exactly when the actor is ready, the profile has been fetched and exists, the pending number is non-empty and the profile has no phone number. The saved profile is the old one with only the phone number replaced. |
| PendingPhone.ReconcileSettles | src/frontend/src/hooks/usePendingPhoneNumber.ts:14-24 | `SaveRequest` issues no save for the profile it produced. |
| PendingPhone.PendingPhoneStore.constructor | src/frontend/src/hooks/usePendingPhoneNumber.ts:5 | Storage starts with the given entry. |
| PendingPhone.PendingPhoneStore.SetPendingPhoneNumber | src/frontend/src/hooks/usePendingPhoneNumber.ts:41-45 | An empty number leaves storage unchanged; any other is stored. |
| PendingPhone.PendingPhoneStore.ClearPendingPhoneNumber | src/frontend/src/hooks/usePendingPhoneNumber.ts:47-49 | The key is absent afterwards, so clearing twice is clearing once. |
| PendingPhone.PendingPhoneStore.Reconcile | src/frontend/src/hooks/usePendingPhoneNumber.ts:12-38 | The save issued is `SaveRequest` of the stored value. The key is removed only when a save was issued and succeeded; otherwise it is kept for a retry. |
| PendingPhone.ClearTwiceThenRetry | src/frontend/src/hooks/usePendingPhoneNumber.ts:26-49 | After two clears and a set, a failed save keeps the number, so the retry issues the same save. The key remains only when no save was issued. |
| CallSignaling.ShouldPoll | src/frontend/src/hooks/useVideoCall.ts:35 | Polling is on exactly while a call is being set up: never when idle, connected, ended or failed. |
| CallSignaling.SetupError | src/frontend/src/hooks/useVideoCall.ts:145-152 | A setup failure records the permission error exactly when the thrown name is `NotAllowedError` or `PermissionDeniedError`, and the generic error otherwise. It never records the connection or signaling kind. |
| CallSignaling.AppendFresh | src/frontend/src/hooks/useVideoCall.ts:263-271 | Appending a key not yet present keeps a candidate sequence free of repeats. |
| CallSignaling.HandleMessage | src/frontend/src/hooks/useVideoCall.ts:250-275 | One message never shrinks the processed set. It leaves the call state alone, except for moving an idle snapshot to `incoming`. |
| CallSignaling.HandleMessageKeepsCandidatesOnce | src/frontend/src/hooks/useVideoCall.ts:261-274 | One message keeps the invariant that no candidate reaches the connection twice. Applied and buffered candidates stay distinct, disjoint and processed. |
| CallSignaling.HandleBatch | src/frontend/src/hooks/useVideoCall.ts:248-279 | A batch, handled in list order with skipped messages not stopping the rest, keeps both facts. |
| CallSignaling.HandleBatchKeepsCandidatesOnce | src/frontend/src/hooks/useVideoCall.ts:248-279 | A whole batch keeps the at-most-once candidate invariant. |
| CallSignaling.BatchTrace | src/frontend/src/hooks/useVideoCall.ts:252-253 | A batch only ever sets `incoming`, and only when it was seen in `idle`. |
| CallSignaling.HandleBatchSingle | src/frontend/src/hooks/useVideoCall.ts:248 | A batch of one message is that message handled alone. |
| CallSignaling.HandleBatchAppend | src/frontend/src/hooks/useVideoCall.ts:248 | Handling two batches with one snapshot is handling their concatenation. |
| CallSignaling.DuplicateCandidateIgnored | src/frontend/src/hooks/useVideoCall.ts:262-263 | A candidate whose key is already processed changes nothing. |
| CallSignaling.CandidateRouting | src/frontend/src/hooks/useVideoCall.ts:261-274 | A new candidate is marked processed in every case. It is then applied if the connection has a remote description, buffered if the connection has none, and dropped if there is no connection or the browser refused it. |
| CallSignaling.BatchMarksCandidates | src/frontend/src/hooks/useVideoCall.ts:261-264 | Every candidate in a handled batch is processed afterwards. |
| CallSignaling.ProcessedCandidatesIgnored | src/frontend/src/hooks/useVideoCall.ts:263 | A batch of candidates that are all already processed is a no-op. |
| CallSignaling.CandidateBatchRedelivered | src/frontend/src/hooks/useVideoCall.ts:261-274 | A redelivered batch of candidates changes nothing, whatever the snapshot and outcomes. |
| CallSignaling.ProcessedBatchOnlyReanswers | src/frontend/src/hooks/useVideoCall.ts:252-274 | Outside `idle`, a batch whose candidates are all processed changes at most the remote description. With every answer refused, it changes nothing. |
| CallSignaling.BatchRedelivered | src/frontend/src/hooks/useVideoCall.ts:248-279 | A batch polled again, offers and answers included, and handled outside `idle` can change at most the remote description, through a repeated answer. With every repeated answer refused, the redelivery changes nothing. |
| CallSignaling.OfferOnlyWhilePollingOff | src/frontend/src/hooks/useVideoCall.ts:252-255 | An offer acts only on a batch seen in `idle`, a state in which polling is off. It then gives `incoming` with an empty buffer; seen in any other state it is ignored. |
| CallSignaling.AnswerOnlyWhileConnecting | src/frontend/src/hooks/useVideoCall.ts:256-260 | An answer changes only the remote description. It does so exactly when the snapshot is `connecting`, a connection exists, the browser accepts it and the description is new. |
| CallSignaling.CandidateBeforeAnswerStaysBuffered | src/frontend/src/hooks/useVideoCall.ts:256-272 | A candidate that comes before the answer stays in the buffer after the answer is set, and is never added to the connection. |
| CallSignaling.CandidateWithOfferDropped | src/frontend/src/hooks/useVideoCall.ts:252-274 | A candidate that comes with the offer is marked processed and dropped, and later copies of it are ignored. |
| VideoCallHook.VideoCallSession.constructor | src/frontend/src/hooks/useVideoCall.ts:20-29 | A new session is idle, has no error, holds nothing and satisfies the invariant. |
| VideoCallHook.VideoCallSession.Cleanup | src/frontend/src/hooks/useVideoCall.ts:51-63 | No connection, no streams, an empty buffer and an empty processed set. Everything else is unchanged. |
| VideoCallHook.VideoCallSession.FailSetup | src/frontend/src/hooks/useVideoCall.ts:145-154 | The state is `error`, the error is chosen by the thrown name, and the session is cleaned up. |
| VideoCallHook.VideoCallSession.StartCall | src/frontend/src/hooks/useVideoCall.ts:105-156 | Without a recipient, or outside `idle`, it returns false and changes nothing. On success it passes through `outgoing` with the error cleared, holds the stream and a fresh connection, has sent the offer, ends in `connecting` and returns true. On failure it ends in `error`, cleaned up, and returns false. The invariant is kept. |
| VideoCallHook.VideoCallSession.AcceptCall | src/frontend/src/hooks/useVideoCall.ts:159-221 | Without a recipient, or outside `incoming`, it changes nothing. On success it is `connecting`, and the connection carries the offer and every buffered candidate in buffer order. The buffer is then empty and the answer has been sent. On failure it ends in `error`, cleaned up. |
| VideoCallHook.VideoCallSession.DeclineCall | src/frontend/src/hooks/useVideoCall.ts:224-231 | From any state it ends `idle` with the error cleared and the session cleaned up. A clear of the chat's channel is requested when a chat id is known. |
| VideoCallHook.VideoCallSession.EndCall | src/frontend/src/hooks/useVideoCall.ts:234-241 | From any state it ends in `ended`, cleaned up, with the error kept. A channel clear is requested when a chat id is known. The idle timer is started unless that clear fails. |
| VideoCallHook.VideoCallSession.IdleTimerFires | src/frontend/src/hooks/useVideoCall.ts:240 | The pending timer sets `idle` and changes nothing else. |
| VideoCallHook.VideoCallSession.OnConnectionStateChange | src/frontend/src/hooks/useVideoCall.ts:91-97 | `connected` gives `connected`. `failed` and `disconnected` record the connection error and give `error`, without cleaning up. Any other state changes nothing. |
| VideoCallHook.VideoCallSession.OnIceCandidate | src/frontend/src/hooks/useVideoCall.ts:69-80 | A discovered candidate is sent to the recipient when both exist; nothing else changes. |
| VideoCallHook.VideoCallSession.OnTrack | src/frontend/src/hooks/useVideoCall.ts:82-89 | The event's first stream, if any, becomes the remote stream. |
| VideoCallHook.VideoCallSession.HandleSignalingMessage | src/frontend/src/hooks/useVideoCall.ts:250-275 | The negotiation changes exactly as `HandleMessage` says, and the trace gains `incoming` for an offer seen in `idle`. The invariant is kept. |
| VideoCallHook.VideoCallSession.ProcessMessages | src/frontend/src/hooks/useVideoCall.ts:244-283 | The negotiation after the batch is `HandleBatch` of the state before, against the state seen on arrival. Nothing outside the negotiation changes, and the invariant is kept. |
| VideoCallHook.CallerSide | src/frontend/src/hooks/useVideoCall.ts:105-156 | A caller sends its offer and candidate, applies the answer and reaches `connected`. |
| VideoCallHook.CalleeSide | src/frontend/src/hooks/useVideoCall.ts:159-283 | A callee goes from offer to `incoming`, sends its answer on accepting, adds the caller's candidate and reaches `connected`. The offer's batch is handed over in `idle`, where the hook itself does not poll. |
| VideoCallHook.PermissionDeniedCall | src/frontend/src/hooks/useVideoCall.ts:145-154 | A denied camera ends in `error` with the permission error, holding neither stream nor connection. |
| VideoCallHook.EndCallWithFailedClear | src/frontend/src/hooks/useVideoCall.ts:234-241 | After a failed clear no timer is set: the call stays `ended`, and a new `startCall` returns false. |
| VideoCallHook.EndConnectedCall | src/frontend/src/hooks/useVideoCall.ts:234-241 | Ending a connected call shows `ended` with both streams released, then `idle` once the timer fires. |

## Left out

- WebRTC and media internals are not modelled: `RTCPeerConnection`, `getUserMedia`, SDP
  generation, `addTrack`, the STUN server list and video element `srcObject`. They are browser
  calls. Their outcomes (a stream, SDP text, a thrown error's name, acceptance of a
  description or candidate) are parameters.
- The signaling transport and backend calls are not modelled. The hooks
  `useSendSignaling`, `useGetSignalingMessages` and `useClearSignaling` are not part of this
  model. A send is recorded in `sent`, a clear in `clearRequests`, and a polled batch is an
  argument of `ProcessMessages`.
- `JSON.parse` and `JSON.stringify` are modelled as the `Payload` datatype. A candidate's key is
  an opaque string, and text that does not parse is `Malformed`.
- `StartCall` and `AcceptCall` each run as one atomic step. React's asynchronous interleaving
  (a batch handled while `getUserMedia` is pending) is not modelled. A failure is a single
  thrown name, because the catch path cleans up whatever the failed step left behind.
- `AcceptCall`: a failure thrown while adding a buffered candidate is not separated from the
  other failures. Every failure ends in the same cleaned-up `error` state.
- `Cleanup` models the effects on state only. Stopping the local tracks goes through a stream
  captured at render time, and that release is not modelled.
- The unmount cleanup effect, `isLoading` and the video element refs are React plumbing and are
  not modelled.
- The 2000 ms `setTimeout` of `endCall` is the explicit event `IdleTimerFires`, not real time.
- `ShouldPoll` is used only by `OfferOnlyWhilePollingOff`. The polling interval is not modelled.
- JsStrings.ParseInt: the value is an exact unbounded integer, not a double. `parseInt` rounds
  above 2^53 (`"9007199254740993"` gives 9007199254740992) and gives `Infinity` for 310 or more
  digits; the model does neither. `ParseIntDecimal` and `AgeFromInputDecimal` are stated only up
  to 2^53.
- `TextLess`: JavaScript compares strings by UTF-16 code unit. The model compares Dafny
  characters. The two orders agree on principal text, which is ASCII.
- `ParseInt`: decimal only. The `0x` hexadecimal prefix that `parseInt` without a radix
  accepts is not modelled. The value comes from an `<input type="number">`, which does not
  produce that prefix.
- Profile page UI state is not modelled: `formData`, the loading screen and the other
  `setFormData` calls. `Load` stands for the effect that fills the form from a loaded profile.
- `PendingPhone.StoredProfile`: the declared `DatingProfile` type in `backend.d.ts` has no
  phone-number field, while the hook reads and writes `phoneNumber`. The phone number is kept
  beside the declared fields.
- The save mutation of `usePendingPhoneNumber` is asynchronous. `Reconcile` takes its outcome
  as the parameter `saveSucceeds`. Repeated effect runs while a save is in flight are not
  modelled.
- `localStorage` is the single `Option<string>` field `stored`.
