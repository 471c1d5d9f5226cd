# Mercury Relay: a verified model

Mercury Relay is the host side of a relay between phones and Hermes sessions. It pairs devices, keeps a
host-owned lease on a session across lost connections, carries frames through a Noise channel, and fences
everything when a device is revoked. This project models that logic in Dafny and proves what the design
relies on, for all inputs, all runs and all interleavings.

Each component has a specification module of values, step functions and lemmas. Where the program updates
objects in place, a companion module has classes with the same fields, and every method is proved to compute
the step of the specification.

| component | specification | objects |
|---|---|---|
| fragmentation and reassembly | `Framing` | `Framing.Reassembler` |
| Noise handshake and transport ciphers | `Noise`, `KeySchedule` | `NoiseState` |
| secure channel, encrypted transport | `SecureChannel`, `Transport`, `Failures` | the same modules |
| session lease, submissions | `SessionLease`, `Retention`, `Submissions`, `Waiters` | `LeaseObjects`, `Submissions.SubmissionLedger` |
| admission against revocation | `Admission`, `Opens` | |
| pairing offers and device records, revocation | `Authorization`, `Pairing`, `Revocation` | `AuthorizationObjects` |
| push bridge | `Push`, `Grants` | `PushObjects` |
| host socket: pacing and multiplexing | `Pacing`, `RelayClient`, `Hosting` | `RelayObjects` |
| recovery of delegated work | `Recovery`, `Upkeep` | `RecoveryObjects` |
| QR error correction and placement, check character | `Galois`, `ReedSolomon`, `Generators`, `GeneratorTable`, `Placement`, `CheckChar` | the methods of these modules |

Where a row names a second specification module, it says exactly when the operations of the first succeed and
what they then bring about, so that doing nothing would not meet it.

`Common` holds options, results and bytes; `Machine` holds runs of step functions.

`dafny verify dfyconfig.toml` checks the project.

## How the program is modelled

- A step is one stretch of the program without suspension; steps of different tasks interleave freely, so
  claims over runs hold for every schedule. Clock readings, random identifiers, results of writes, of HTTP
  calls and of callbacks are arguments of the steps.
- HASH, HKDF, DH and AEAD are parameters with four laws: DH commutes, public keys have one length, opening
  undoes sealing, and a sealed text is 16 bytes longer. `SecureChannel.SizedAndLawful` shows
  that the laws can be met, with keys and hashes of 32 bytes.
- Histories that the program does not keep (all frames of a session, all POSTs, all settled futures, all
  frames that arrived) are recorded by the steps so that claims can speak of them.

## Where code and documentation part

- The check character: its documentation names the blind spot of A and 7 for a substitution only; it holds
  for exchanges too (`CheckChar.SwapIsCaught`).
- A reused request id: the response is recorded for the first open submission with that id
  (`Submissions.ReusedIdIsMisrecorded`; exactly which use of ids is safe: `Submissions.RunIsSafeIffCareful`).
- A revocation that has returned can leave a lease unreleased: an open that was waiting for its controller
  registers a lease, and if the repository read of its last check then raises, the open ends without a release
  (`Admission.RaisingReadLeavesALease`; exactly in which continuations
  a revocation holds: `Admission.RevocationHoldsIff`).
- A push registration that passed its checks before close and gets the lock after it is never settled
  (`Push.LatecomerIsStranded`; exactly when one is settled: `Push.SettledIffEnteredBeforeClose`).
- A clock that goes back can make a revoke fail validation (`Revocation.RevokeIsRefused`; exactly when:
  `Authorization.RevokeRefusedIff`).
- Revoking a record does not touch a second record of the same key, which stays authorized, or is approved later
  although its key is known to be revoked (`Revocation.RevokedKeyIsApproved`; exactly when a revoke ends its key:
  `Revocation.RevokeEndsKeyIff`).
- A terminal task can change what it says: a reply that proves its session's binding takes over what the store
  remembers as terminal for that child (`Recovery.TerminalTaskIsChanged`; exactly when:
  `Recovery.ReplyChangesIff`).

## Model

| member | source | states |
|---|---|---|
| `Framing.FragmentCount` | src/mercury_relay_plugin/framing.py:103-106 | a message has one fragment per started 65,469-byte slice and at least one: the last fragment starts inside the message, and none starts beyond it |
| `Framing.PayloadLength` | src/mercury_relay_plugin/framing.py:109-114 | every fragment but the last is full, and the lengths of all fragments add up to the message |
| `Framing.RecordLayout` | src/mercury_relay_plugin/framing.py:131-146 | what stands at which byte of a record, most significant byte first: letters, version, kind, two zeros, index, count, both lengths, channel, message, payload |
| `Framing.DecodeOfRecord` | src/mercury_relay_plugin/framing.py:117-146 | decoding the record of a canonical frame gives back that frame |
| `Framing.RecordOfDecode` | src/mercury_relay_plugin/framing.py:236-289 | whatever decodes is canonical, and encoding it again gives the very bytes: no second encoding of a frame exists |
| `Framing.PushRecords` | src/mercury_relay_plugin/framing.py:193-224 | the records of a message fed to an idle reassembler yield nothing until the last, then exactly the payload, and leave it idle |
| `Framing.EveryDeliveryIsAnEncoding` | src/mercury_relay_plugin/framing.py:328-367 | over every sequence of pushes, whenever a message is delivered the records since the last idle state are exactly the encoding of that message on the reassembler's own channel |
| `Framing.DeliveredIsEncoded` | src/mercury_relay_plugin/framing.py:328-367 | the same for one push from any consistent state |
| `Framing.ReceivedLengthRefusalsUnreachable` | src/mercury_relay_plugin/framing.py:328-361 | in no consistent state can a record be refused for its received length or its kind: those refusals are unreachable |
| `Framing.PushKeepsConsistent` | src/mercury_relay_plugin/framing.py:328-367 | every push, accepted or refused, keeps the link between the parts held and the records that brought them |
| `Framing.ReachableIsConsistent` | src/mercury_relay_plugin/framing.py:292-367 | every state reached from idle by any pushes is consistent |
| `Framing.Reassembler.Push` | src/mercury_relay_plugin/framing.py:328-367 | the in-place push computes the next assembly and the same answer or fault |
| `Framing.Reassembler.Reset` | src/mercury_relay_plugin/framing.py:312-319 | a reset leaves an idle reassembler of the same channel |
| `Noise.OpenedOfSealed` | src/mercury_relay_plugin/_vendor/noise/state.py:41-76 | opening what an equal cipher state sealed gives the plaintext and advances both nonces alike |
| `Noise.TokenSync` | src/mercury_relay_plugin/_vendor/noise/state.py:292-418 | for each token, what one side writes the other side reads, and both mix the same key material |
| `Noise.TokensSync` | src/mercury_relay_plugin/_vendor/noise/state.py:292-418 | the same for every list of tokens |
| `Noise.MessageSync` | src/mercury_relay_plugin/_vendor/noise/state.py:292-418 | for every token list and payload, reading a written handshake message recovers the payload and leaves the two handshake states synchronised (sections 5.2 and 5.3 of the Noise Protocol Framework) |
| `Noise.NotReadyIsRefused` | src/mercury_relay_plugin/_vendor/noise/state.py:351-418 | a reader that lacks a key a token needs refuses the message |
| `Noise.TransportMatches` | src/mercury_relay_plugin/_vendor/noise/state.py:188-217 | after the split each side's sending cipher equals the other side's receiving cipher |
| `Noise.XkHandshake` | src/mercury_relay_plugin/_vendor/noise/state.py:236-418 | the three messages of the XK pattern (section 7.5) carry their payloads, end on both sides, and reveal each static key to the other side |
| `KeySchedule.HandshakeComputes` | src/mercury_relay_plugin/_vendor/noise/state.py:127-217 | the three XK messages, the transcript hash, the chaining key and both transport keys are what HMAC, hash and seal alone make of the two static keys, the two ephemeral keys and the payloads: the chaining key runs through dh(e_i, rs), dh(e_i, re) and dh(s_i, re) in this order (section 2.3 of RFC 5869; sections 4.3, 5.2 and 7.5 of the Noise Protocol Framework), and the initiator sends with the first key |
| `KeySchedule.EveryAgreementCounts` | src/mercury_relay_plugin/_vendor/noise/state.py:127-140 | two sessions with different names or with any of the three key agreements different that end with one chaining key, or one uncut transport key for one direction, give a collision of HMAC |
| `KeySchedule.MixKeyAndHashIs` | src/mercury_relay_plugin/_vendor/noise/state.py:150-162 | mixing a pre-shared key takes the first three blocks of the key derivation: chaining key, hash input, cipher key |
| `NoiseState.CipherState.EncryptWithAd` | src/mercury_relay_plugin/_vendor/noise/state.py:41-57 | in place: seals with the current nonce and steps it; refused when nonces are used up, unchanged |
| `NoiseState.CipherState.DecryptWithAd` | src/mercury_relay_plugin/_vendor/noise/state.py:59-76 | in place: the nonce advances only when the tag is right |
| `NoiseState.SymmetricState.MixKey` | src/mercury_relay_plugin/_vendor/noise/state.py:127-140 | in place refinement of mixing key material, which `KeySchedule.HandshakeComputes` writes out |
| `NoiseState.SymmetricState.EncryptAndHash` | src/mercury_relay_plugin/_vendor/noise/state.py:164-174 | in place refinement of sealing under the transcript hash |
| `NoiseState.SymmetricState.DecryptAndHash` | src/mercury_relay_plugin/_vendor/noise/state.py:176-186 | in place refinement of opening under the transcript hash |
| `NoiseState.SymmetricState.Split` | src/mercury_relay_plugin/_vendor/noise/state.py:188-217 | two fresh cipher states with the derived keys and nonce 0 |
| `NoiseState.HandshakeState.WriteMessage` | src/mercury_relay_plugin/_vendor/noise/state.py:292-349 | the loop over tokens writes exactly the message of the specification and reaches its state |
| `NoiseState.HandshakeState.ReadMessage` | src/mercury_relay_plugin/_vendor/noise/state.py:351-418 | the loop over tokens reads exactly what the specification reads, with the same faults |
| `SecureChannel.RunFollowsScript` | src/mercury_relay_plugin/secure_channel.py:243-391 | in every run of calls the accepted handshake calls follow the fixed order of the role, whatever else is tried |
| `SecureChannel.NothingBeforeHandshake` | src/mercury_relay_plugin/secure_channel.py:335-391 | in every run, encryption, decryption, admission and binding are refused before the handshake has ended |
| `SecureChannel.ChannelHandshake` | src/mercury_relay_plugin/secure_channel.py:258-333 | two fresh channels run through the handshake open, with matching ciphers, one binding, and each other's static key; the three messages, the binding and both keys are those of the key schedule |
| `SecureChannel.ChannelFlight` | src/mercury_relay_plugin/secure_channel.py:258-333 | one flight between two channels in step succeeds and keeps them in step |
| `SecureChannel.NoiseChannel.WriteHandshake` | src/mercury_relay_plugin/secure_channel.py:258-293 | in place: same reply and state as the step; any failure closes the channel |
| `SecureChannel.NoiseChannel.ReadHandshake` | src/mercury_relay_plugin/secure_channel.py:295-333 | in place: same reply and state as the step; any failure closes the channel |
| `SecureChannel.NoiseChannel.Encrypt` | src/mercury_relay_plugin/secure_channel.py:335-351 | in place refinement of sealing one record |
| `SecureChannel.NoiseChannel.Decrypt` | src/mercury_relay_plugin/secure_channel.py:353-371 | in place refinement of opening one record; a bad record closes the channel |
| `SecureChannel.NoiseChannel.MarkAdmitted` | src/mercury_relay_plugin/secure_channel.py:373-379 | admission at most once, after the handshake |
| `SecureChannel.NoiseChannel.MarkTransportBound` | src/mercury_relay_plugin/secure_channel.py:381-387 | binding at most once, after admission |
| `Transport.FramesGoThrough` | src/mercury_relay_plugin/controller_transport.py:140-205 | for every sequence of legal frames, framing and sealing on one end, then opening and reassembling in order on the other, hands over exactly those texts, with nonces in step |
| `Transport.FrameGoesThrough` | src/mercury_relay_plugin/controller_transport.py:140-205 | the same for one frame |
| `Transport.SendingSucceeds` | src/mercury_relay_plugin/controller_transport.py:175-205 | sending a sequence of legal frames succeeds if and only if the nonces last for its records |
| `Transport.PairedAreCaughtUp` | src/mercury_relay_plugin/controller_transport.py:89-123 | channels fresh from their handshake are in the state from which frames go through |
| `Transport.EncryptedControllerTransport.Bind` | src/mercury_relay_plugin/controller_transport.py:89-123 | in place: a transport is made exactly for an open, admitted, unbound channel of the host and an id of 16 bytes; the channel is then bound, and otherwise untouched |
| `Transport.EncryptedControllerTransport.FeedCiphertext` | src/mercury_relay_plugin/controller_transport.py:140-173 | in place: one record in, handed text or pending or a failure that closes everything |
| `Transport.EncryptedControllerTransport.NextCiphertexts` | src/mercury_relay_plugin/controller_transport.py:175-205 | in place: one frame out as its sealed records, or a failure that closes everything |
| `Transport.EncryptedControllerTransport.Close` | src/mercury_relay_plugin/controller_transport.py:235-248 | closing closes the channel and forgets the message in progress, once |
| `Failures.OpensExactly` | src/mercury_relay_plugin/secure_channel.py:353-371 | a record opens exactly when the cipher opens it under the next nonce, which then advances; a wrong length changes nothing, any other failure closes the channel |
| `Failures.SealsExactly` | src/mercury_relay_plugin/secure_channel.py:335-351 | a text is sealed exactly when it is short enough and a nonce is left, under the next nonce |
| `Failures.ClosedForever` | src/mercury_relay_plugin/secure_channel.py:229-235 | in every run every call on a closed channel but a close fails and changes nothing |
| `Failures.FailureIsFinal` | src/mercury_relay_plugin/controller_transport.py:128-173 | in every run of a receiver, after the first record that fails every record fails |
| `SessionLease.EveryRunKeeps` | src/mercury_relay_plugin/session_lease.py:440-581 | the lease invariant holds in every run of retain, failed retain, trim, attach, replace, detach, backpressure, consume and release |
| `SessionLease.RingIsExact` | src/mercury_relay_plugin/session_lease.py:440-496 | in every run of an unreleased lease the ring holds exactly the numbers after trimmed_through up to last_seq, with their texts, within its count and byte caps |
| `SessionLease.YieldedIsARun` | src/mercury_relay_plugin/session_lease.py:152-221 | what an attachment yields is a contiguous run of the full history that starts just after its start |
| `SessionLease.GapIsLoss` | src/mercury_relay_plugin/session_lease.py:500-573 | an attachment starts after the later of cursor and trimmed_through, and reports a gap if and only if some frame after its cursor was lost |
| `SessionLease.GapFreeReattachesYieldHistory` | src/mercury_relay_plugin/session_lease.py:500-573 | a chain of gap-free reattaches at the last consumed number yields the whole history, each frame once, in order |
| `SessionLease.EveryRunIsWorded` | src/mercury_relay_plugin/session_lease.py:465-479 | what is sent for a frame is its own text, or its recovery envelope, in every run |
| `SessionLease.NewAttachmentIsSound` | src/mercury_relay_plugin/session_lease.py:500-573 | a new attachment replays exactly the retained frames after its cursor |
| `Retention.GoneWasOverdue` | src/mercury_relay_plugin/session_lease.py:481-496 | in every run, whatever the clock does, a frame that is gone was found by some trim to be too old, or over the count or byte cap with the frames after it |
| `Retention.GoneIffOverdue` | src/mercury_relay_plugin/session_lease.py:481-496 | in every run with a clock that does not go back, a frame is gone if and only if that is so at the last trim |
| `Retention.AttachGetsAllIff` | src/mercury_relay_plugin/session_lease.py:500-573 | in every such run an attach is accepted exactly unless the lease is released, the cursor out of range or ahead, or another attachment stays; it is told of a gap if and only if the first frame missed is too old, or over a cap with those after it; without a gap it gets every frame after its cursor |
| `Retention.OverflowIff` | src/mercury_relay_plugin/session_lease.py:481-496 | a trim reports an overflow if and only if it finds the ring over a cap |
| `Retention.CapReachedIff` | src/mercury_relay_plugin/session_lease.py:440-458 | a frame counts as one too many if and only if nobody is attached, no client recovers, and the ring with it is over a cap |
| `Retention.SizeIsUtf8` | src/mercury_relay_plugin/session_lease.py:440-450 | the size that the caps count is the length of the UTF-8 form |
| `Retention.DeliveredIffRoom` | src/mercury_relay_plugin/session_lease.py:152-158 | in every run a frame is queued last for the live attachment if and only if there is room for it in count and bytes; otherwise the attachment loses its place and keeps its queue |
| `Retention.AnsweredIffRoom` | src/mercury_relay_plugin/session_lease.py:821-831 | the same for an answer to a request of the attachment |
| `Retention.TakesAll` | src/mercury_relay_plugin/session_lease.py:195-221 | whoever takes from an attachment as often as it holds outputs gets them all in order: preamble, replay, replay-complete, live items; then every frame of its stream has been yielded |
| `Retention.ReplaysAreMarked` | src/mercury_relay_plugin/session_lease.py:465-479 | a replayed frame is sent as itself, or to a recovering client in an envelope marked as replay |
| `Retention.DetachHolds` | src/mercury_relay_plugin/session_lease.py:172-186 | losing the place leaves an attachment what it holds, release and replacement take it away, and the first reason stays |
| `LeaseObjects.LeaseAttachment.NextText` | src/mercury_relay_plugin/session_lease.py:195-221 | in place: preamble, replay, replay-complete, live items, then the end |
| `LeaseObjects.LeaseAttachment.MarkDetached` | src/mercury_relay_plugin/session_lease.py:172-186 | release and replacement discard the queue; the first reason stays |
| `LeaseObjects.SessionLease.Trim` | src/mercury_relay_plugin/session_lease.py:481-496 | the loop drops exactly what the specification drops, which `Retention.GoneIffOverdue` characterises, and says whether a cap was exceeded |
| `LeaseObjects.SessionLease.Retain` | src/mercury_relay_plugin/session_lease.py:440-463 | in place: number, ring, trim, then delivery to the live attachment or backpressure |
| `LeaseObjects.SessionLease.RetainFails` | src/mercury_relay_plugin/session_lease.py:441-445 | a frame whose bookkeeping raises has taken a number; the lease is released |
| `LeaseObjects.SessionLease.Attach` | src/mercury_relay_plugin/session_lease.py:500-573 | in place: the refusals in order, replacement, trim, the gap flag and the replay |
| `LeaseObjects.SessionLease.Detach` | src/mercury_relay_plugin/session_lease.py:575-581 | in place: only the given attachment loses its place |
| `LeaseObjects.SessionLease.Release` | src/mercury_relay_plugin/session_lease.py:374-403 | in place: fences the lease at once |
| `Submissions.FedAtMostOnce` | src/mercury_relay_plugin/session_lease.py:585-636 | in every run, feeds of a submission id equal its evictions plus its retained records, so it is fed at most once while retained; the table keeps within its cap and only settled records are evicted |
| `Submissions.OutcomeIsFinal` | src/mercury_relay_plugin/session_lease.py:848-873 | in every run a recorded outcome never changes while its record is retained |
| `Submissions.DuplicateIsAnswered` | src/mercury_relay_plugin/session_lease.py:585-636 | a duplicate is never fed: it gets the recorded outcome, or waits for it, or is dropped when eight already wait |
| `Submissions.RunIsSafeIffCareful` | src/mercury_relay_plugin/session_lease.py:585-636 | over all runs: at every point every recorded outcome is the response to the original request, and so is whatever the next response will record, if and only if no submission that reaches Hermes uses an id that is awaited or in flight, no refused one newly claims an id in flight, and no other request uses an awaited id; requests without an id are always fine |
| `Submissions.SafeIffAligned` | src/mercury_relay_plugin/session_lease.py:848-873 | from genuine outcomes, every possible next response is recorded rightly if and only if each id in flight is awaited first by the record of that very request, or by none |
| `Submissions.StepAlignedIff` | src/mercury_relay_plugin/session_lease.py:585-636 | a step keeps ids and records aligned if and only if it uses its id with care, for each way the feed can end |
| `Submissions.ReusedIdIsMisrecorded` | src/mercury_relay_plugin/session_lease.py:848-873 | a concrete run in which a reused request id records the response of the wrong request |
| `Waiters.WaitersAreAnswered` | src/mercury_relay_plugin/session_lease.py:848-873 | in every run, as often as a duplicate was made to wait for a submission it was answered in the step that recorded the outcome, but for the last time if it still waits |
| `Waiters.EightMayWait` | src/mercury_relay_plugin/session_lease.py:632-636 | in every run at most eight duplicates wait for a record, and a further one is dropped if and only if eight others wait |
| `Waiters.FedIffRoom` | src/mercury_relay_plugin/session_lease.py:609-630 | a new submission that Hermes accepts is fed if and only if there is a free place or a settled record to give way; then it is in flight under its own number with a record that waits |
| `Submissions.SubmissionLedger.MakeRoom` | src/mercury_relay_plugin/session_lease.py:613-622 | a full table gives up its oldest settled record, never an open one, and refuses when all are open |
| `Submissions.SubmissionLedger.Submit` | src/mercury_relay_plugin/session_lease.py:585-636 | in place: duplicate, capacity, feed and its failures, including the policy refusal that leaves a record without outcome |
| `Submissions.SubmissionLedger.RecordOutcome` | src/mercury_relay_plugin/session_lease.py:848-880 | in place: the first open record of the request id gets the outcome and its waiters the answer; a response with neither result nor error leaves the record open |
| `Admission.EveryRunKeeps` | src/mercury_relay_plugin/admission.py:302-418 | in every interleaving of opens, revocations, pairings, approvals and releases: leases are owned by registry, lock holder or revocation, and what a revocation settled in the repository stays settled |
| `Admission.ReturnedRevocationReleasesAll` | src/mercury_relay_plugin/admission.py:551-571 | in every interleaving in which the repository answers the last checks, once a revocation has returned and the admission lock is free, every lease it covers is released |
| `Admission.OnlyUnseenEscape` | src/mercury_relay_plugin/admission.py:378-396 | in every interleaving, what is left unreleased then is exactly what a last check did not see because its read raised |
| `Admission.RevocationHoldsIff` | src/mercury_relay_plugin/admission.py:378-396 | from any reachable point at which a revocation has returned with nothing left behind, and for every continuation, whatever its reads do: at every later point at which the lock is free every covered lease is released, if and only if no step of the continuation is the last check of a covered open whose repository read raises |
| `Admission.RaisingReadLeavesALease` | src/mercury_relay_plugin/admission.py:378-396 | a concrete run from the start in which the revocation has returned, the lock is free, and a lease of the revoked device and key is unreleased |
| `Admission.NoAdmissionAfterRevocation` | src/mercury_relay_plugin/admission.py:302-418 | in every interleaving, from a revocation's repository update on, whatever opens were under way and whatever is paired or approved later, no open returns an admitted controller for the device with the revoked key |
| `Admission.NoAdmissionUntilRedrawn` | src/mercury_relay_plugin/admission.py:302-418 | the same for the device with any key, until a pairing draws its random identifier anew |
| `Admission.StaleEpochIsNeverFound` | src/mercury_relay_plugin/admission.py:347-352 | in every interleaving the branch for leases of an older epoch is never taken |
| `Opens.FreshIsAdmittedIff` | src/mercury_relay_plugin/admission.py:366-418 | in every run the open that waits for its controller is admitted if and only if the controller comes, its lease is registered and attached, and every last check passes; its fresh lease is then registered and unreleased |
| `Opens.ResumedIsAdmittedIff` | src/mercury_relay_plugin/admission.py:302-418 | in every run an open that finds the lock free is admitted at once if and only if it asks to go on with a lease, an unreleased one is registered and lets it attach, and every check passes |
| `Opens.FreshOpenGoesThrough` | src/mercury_relay_plugin/admission.py:302-418 | from every reachable state with the lock free and no lease under the channel, a fresh open of an authorized device whose controller comes and whose checks pass is admitted |
| `Opens.FreshOpenSupersedes` | src/mercury_relay_plugin/admission.py:447-461 | in every run a fresh open of a channel whose lease is still there waits for the release of exactly that lease |
| `Opens.SupersededGoesOn` | src/mercury_relay_plugin/admission.py:447-461 | and goes on to its controller if the release succeeded, and ends if it failed |
| `Opens.ReleaseEnds` | src/mercury_relay_plugin/session_lease.py:374-403 | a release that is begun and ends leaves its lease released and settled, and no other touched |
| `Authorization.NextRemembers` | src/mercury_relay_plugin/authorization.py:442-469 | no transition loses a revoked key digest, whatever is pruned |
| `Authorization.RunRemembers` | src/mercury_relay_plugin/authorization.py:442-616 | over every run the set of revoked key digests never shrinks |
| `Authorization.RevokedKeyNeverPairsAgain` | src/mercury_relay_plugin/authorization.py:530-616 | after a successful revoke, no later run of transitions lets an offer be consumed with that key |
| `Authorization.RevokeIsNoted` | src/mercury_relay_plugin/authorization.py:805-827 | a successful revoke puts the key digest into the set |
| `Authorization.SlotFailsOnlyWhenFull` | src/mercury_relay_plugin/authorization.py:442-469 | pruning leaves the list full if and only if no denied record remains, the evidence is full, and no remaining revoked digest is in it |
| `Authorization.NextEvolves` | src/mercury_relay_plugin/authorization.py:420-827 | every record after an operation is an earlier one after at most one move (pending to authorized, denied or revoked; authorized or denied to revoked), or the one record of a consumption, whose identifier is new among those kept and whose key was never revoked |
| `Authorization.AuthorizedEpochIsZero` | src/mercury_relay_plugin/authorization.py:618-649 | in every run an authorized record has epoch 0 |
| `Authorization.OfferYieldsAtMostOneRecord` | src/mercury_relay_plugin/authorization.py:530-616 | in every run at most one device record appears under each offer, and none before the first |
| `Pairing.PairingNeedsCapability` | src/mercury_relay_plugin/authorization.py:530-616 | in every run each consumption that succeeded had a capability that hashes as the one the open offer was made with, a matching identity and a time before creation plus ttl, and brought exactly the record of its own identifier, key and binding |
| `Pairing.PairsIff` | src/mercury_relay_plugin/authorization.py:530-616 | in every run, with a clock not behind the state, a consumption succeeds if and only if an offer is open and matches, the key was never revoked, fewer than five records are in use, a slot and the identifier are free, and the write works |
| `Pairing.RightCapabilityPairs` | src/mercury_relay_plugin/authorization.py:530-616 | so with room in the list the right capability in time pairs a device of a new key and identifier |
| `Pairing.OffersIff` | src/mercury_relay_plugin/authorization.py:471-528 | in every run, with such a clock, an offer is made if and only if its ttl is 1 to 600 seconds, a slot is free, its identifier differs from the last and the write works |
| `Pairing.ApprovesIff` | src/mercury_relay_plugin/authorization.py:618-704 | with such a clock and a working write, an approval succeeds if and only if the record shows the proof and is authorized, or pending and under 600 seconds old; then it is authorized with its key and binding, and other records are as before but for those timed out |
| `Pairing.DeniesIff` | src/mercury_relay_plugin/authorization.py:765-788 | with such a clock and a working write, a denial succeeds if and only if the record is pending, denied or missing, and then no record of the identifier is anything but denied; other records are untouched |
| `Pairing.ExpiresIff` | src/mercury_relay_plugin/authorization.py:790-803 | with such a clock and a working write, an expiry on request denies exactly the pending records of that age |
| `Pairing.RevokesIff` | src/mercury_relay_plugin/authorization.py:805-827 | with such a clock and a working write, a revocation of a record that is there succeeds, leaves it revoked with its key, and touches no other |
| `Pairing.OldestGivesWay` | src/mercury_relay_plugin/authorization.py:442-469 | a full list that can do without a record gives up exactly one, which no other such record comes before: denied before revoked, then by last change, then by identifier; the digest of a revoked key stays |
| `Authorization.AuthorizedWasVouchedFor` | src/mercury_relay_plugin/authorization.py:618-704 | in every run an authorized record was approved with its digest or fingerprint while less than 600 seconds old, in an approval that was written |
| `Authorization.NeverRefused` | src/mercury_relay_plugin/authorization.py:248-339 | from a valid state and a clock not before its timestamps, no transition is refused by validation, whether its write works or not |
| `Authorization.TimedRunIsNeverRefused` | src/mercury_relay_plugin/authorization.py:411-418 | with a positive clock that never goes back, no transition of any run is refused by validation, whatever writes fail |
| `Authorization.RevokeRefusedIff` | src/mercury_relay_plugin/authorization.py:805-827 | a revoke is refused by validation if and only if the clock reads earlier than the record was created |
| `Revocation.EveryRunIsValid` | src/mercury_relay_plugin/authorization.py:411-418 | in every run from the empty state the persisted state passes validation, and epochs count the moves of a record |
| `Revocation.RevokedIdStaysOut` | src/mercury_relay_plugin/authorization.py:530-704 | over all runs: after a successful revoke, the identifier is not authorized with any key before a consumption draws it anew |
| `Revocation.RevokedPairStaysOut` | src/mercury_relay_plugin/authorization.py:530-704 | over all runs, whatever identifiers are drawn: the revoked identifier is never authorized with the revoked key |
| `Revocation.RevokeEndsKeyIff` | src/mercury_relay_plugin/authorization.py:805-827 | over all runs: a revoke ends its key, under every identifier and in every continuation whose clock does not go back, if and only if no other record of that key is authorized, or pending and under 600 seconds old |
| `Revocation.RevokedKeyIsApproved` | src/mercury_relay_plugin/authorization.py:618-704 | a concrete run from the empty state in which a second, pending record of a revoked key is approved after the revoke |
| `Revocation.RevokeIsRefused` | src/mercury_relay_plugin/authorization.py:411-418 | a concrete run from the empty state in which a revoke is refused because the clock went back one second |
| `AuthorizationObjects.Validate` | src/mercury_relay_plugin/authorization.py:248-339 | the validation loops accept exactly the valid states |
| `AuthorizationObjects.ExpirePendingInState` | src/mercury_relay_plugin/authorization.py:420-440 | the loop denies exactly the timed-out pending records and says whether there were any |
| `AuthorizationObjects.MakeDeviceSlot` | src/mercury_relay_plugin/authorization.py:442-469 | the pruning loop computes the slot of the specification |
| `AuthorizationObjects.AuthorizationRepository.CreateOffer` | src/mercury_relay_plugin/authorization.py:471-528 | in place: the transition and its errors, with nothing written on refusal |
| `AuthorizationObjects.AuthorizationRepository.ConsumeOffer` | src/mercury_relay_plugin/authorization.py:530-616 | in place: the transition that `Pairing.PairsIff` characterises and its errors, with nothing written on refusal |
| `AuthorizationObjects.AuthorizationRepository.Approve` | src/mercury_relay_plugin/authorization.py:618-704 | in place: expiry first, then the proof, then the new status |
| `AuthorizationObjects.AuthorizationRepository.Deny` | src/mercury_relay_plugin/authorization.py:765-788 | in place: pending to denied, with its errors |
| `AuthorizationObjects.AuthorizationRepository.ExpireAll` | src/mercury_relay_plugin/authorization.py:790-803 | in place: expiry on request |
| `AuthorizationObjects.AuthorizationRepository.Revoke` | src/mercury_relay_plugin/authorization.py:805-827 | in place: any status to revoked, with its errors |
| `Push.EveryRunKeeps` | src/mercury_relay_plugin/push.py:328-806 | in every run from an empty store: at most one active handle per device; an unsettled register future is held by exactly one job; no future is settled twice; a granted future was acknowledged; queue and rows within 64 |
| `Push.FencedForever` | src/mercury_relay_plugin/push.py:328-806 | a handle in debt or gone, with no other POST scheduled, stays so in every run, and nothing but unregistrations is posted for it |
| `Push.RevokeFences` | src/mercury_relay_plugin/push.py:421-434 | after a revoke, saved or not, no wake or registration is ever posted for the device's existing handles, and none is active again |
| `Push.DebtIsPaidOnlyByUnregister` | src/mercury_relay_plugin/push.py:706-782 | a handle in debt stays in debt until an acknowledged unregistration removes it |
| `Push.RowLeavesByUnregister` | src/mercury_relay_plugin/push.py:706-782 | any row leaves only by an acknowledged unregistration of its handle |
| `Push.SettledIffEnteredBeforeClose` | src/mercury_relay_plugin/push.py:519-553 | for every entry of the critical section that gets as far as a future, for a new row or a reused one: with nothing else to settle it, the future is settled once a closed bridge has lost its worker if and only if the bridge was open at that entry |
| `Push.StrandedForever` | src/mercury_relay_plugin/push.py:788-806 | a dispatch that enters after close waits in every continuation without a revoke of its device, a cancellation or another close |
| `Push.LatecomerIsStranded` | src/mercury_relay_plugin/push.py:519-553 | a concrete run in which a dispatch passed its checks before close, entered after it, and waits with no worker left |
| `Grants.GrantedIff` | src/mercury_relay_plugin/push.py:693-782 | in every run the end of a register POST settles its unsettled future, well if and only if the POST had begun and was answered with success, the row was active, or pending, of the generation of the job, authorized and saved, and at the end the bridge is open, has not failed and the device is authorized |
| `Grants.ActiveIff` | src/mercury_relay_plugin/push.py:745-772 | and its row is active then if and only if it was, or was pending and current and was acknowledged in scope |
| `Grants.RegistrationGoesThrough` | src/mercury_relay_plugin/push.py:519-553 | from every reachable state of an open, unfailed bridge with nothing queued, a registration whose POST is answered with success ends active and granted |
| `Grants.EveryRegistrationIsReached` | src/mercury_relay_plugin/push.py:706-782 | in every run a queued registration is at work or answered once the worker has fetched as many jobs as were ahead of it and one more: nothing overtakes it |
| `Grants.WakeIsPosted` | src/mercury_relay_plugin/push.py:706-738 | a wake of an active handle in scope goes out |
| `Grants.DebtIsPaid` | src/mercury_relay_plugin/push.py:706-765 | an unregistration that is acknowledged removes the row in debt |
| `Grants.TakenUpIff` | src/mercury_relay_plugin/push.py:706-738 | a fetched job is taken up if and only if its row is there, of its generation, and in a state that its action asks for, on an open and unfailed bridge and for an authorized device unless it unregisters; otherwise its future is settled, and not well |
| `Grants.DebtMakesStale` | src/mercury_relay_plugin/push.py:328-334 | putting a handle into debt makes every job for it stale that was current |
| `Grants.RevokedAreCalled` | src/mercury_relay_plugin/push.py:421-434 | a saved revocation with room puts every selected row into debt and queues its unregistration |
| `Grants.OthersAreCalled` | src/mercury_relay_plugin/push.py:693-782 | a new registration that becomes active, with room, puts the other rows of its device into debt and queues their unregistrations |
| `Grants.RefusedIsCalled` | src/mercury_relay_plugin/push.py:762-765 | a pending registration that is not acknowledged in scope goes into debt, and its unregistration is queued |
| `Grants.ReusesOwnRow` | src/mercury_relay_plugin/push.py:519-527 | a dispatch reuses a row only of its own device and authorization epoch, and none in debt |
| `Grants.AbandonSettles` | src/mercury_relay_plugin/push.py:547-554 | a cancelled dispatch gives up the lock, and its future is settled |
| `Grants.LockIsFreedIff` | src/mercury_relay_plugin/push.py:519-557 | the dispatch that waits lets go of the lock as soon as its future is settled and not before |
| `PushObjects.PushBridge.DropQueued` | src/mercury_relay_plugin/push.py:352-365 | the loop removes exactly the jobs of a handle, keeps the order of the rest and fails the futures |
| `PushObjects.PushBridge.Enqueue` | src/mercury_relay_plugin/push.py:343-350 | in place: starts the worker if needed; a full queue refuses |
| `PushObjects.PushBridge.MakeDebt` | src/mercury_relay_plugin/push.py:328-334 | in place: status debt, generation plus one |
| `PushObjects.PushBridge.Revoke` | src/mercury_relay_plugin/push.py:421-434 | in place: fence every selected row, save, then queue unregistrations |
| `PushObjects.PushBridge.Enter` | src/mercury_relay_plugin/push.py:519-553 | in place: the critical section of a registration up to its wait |
| `PushObjects.PushBridge.Take` | src/mercury_relay_plugin/push.py:706-738 | in place: the next job is posted, failed or ends the worker |
| `PushObjects.PushBridge.Finish` | src/mercury_relay_plugin/push.py:693-782 | in place: what an ended POST does to rows, queue and future, as `Grants.GrantedIff` and `Grants.ActiveIff` say, with retirement of the device's other handles |
| `PushObjects.PushBridge.Close` | src/mercury_relay_plugin/push.py:788-800 | in place: cancel, drain, leave the sentinel |
| `Pacing.AnyWindowIsPaced` | src/mercury_relay_plugin/relay_client.py:436-462 | with a monotone clock and honest sleeps, any ten-second window has at most 1801 completed sends and at most 22,500,000 bytes plus its last frame, for all devices together |
| `Pacing.RouterLimitsHold` | src/mercury_relay_plugin/relay_client.py:186-195 | so the router's 2,000 messages and 25,000,000 bytes are never reached |
| `Pacing.Gap` | src/mercury_relay_plugin/relay_client.py:453-457 | the rest after a frame covers one message and its bytes at nine tenths of the router's rates |
| `Pacing.GapIsLeast` | src/mercury_relay_plugin/relay_client.py:453-457 | and is no longer than that |
| `RelayClient.EveryConnectionIsSound` | src/mercury_relay_plugin/relay_client.py:104-149 | in every run a connection is in the map exactly when it is not closed, and what was received is a prefix of the frames with its id during its life; while open nothing is missing but what is queued |
| `RelayClient.ArrivedIsById` | src/mercury_relay_plugin/relay_client.py:360-380 | a data frame counts for the open connection of its id and for no other |
| `RelayClient.ClosedNeverBlocks` | src/mercury_relay_plugin/relay_client.py:124-136 | a receive on a closed connection gets a queued frame or the end at once, even one that was waiting as it closed |
| `RelayClient.ClosedStaysClosed` | src/mercury_relay_plugin/relay_client.py:113-128 | a closed connection stays closed and nothing more is queued |
| `RelayClient.OnlyOwnStepsEnd` | src/mercury_relay_plugin/relay_client.py:464-473 | only control frames for its id, its own overflow or close, or the end of the socket end a connection: a stale one cannot tear down its successor |
| `RelayClient.StaleNeverSends` | src/mercury_relay_plugin/relay_client.py:436-454 | in every run a closed connection never sends again |
| `RelayClient.WireIsCurrent` | src/mercury_relay_plugin/relay_client.py:436-454 | what is sent belongs to the open connection that holds the id, on the socket it first saw |
| `RelayClient.ReopenMakesStale` | src/mercury_relay_plugin/relay_client.py:404-417 | opening an id again closes every earlier connection under it |
| `Hosting.OpensIff` | src/mercury_relay_plugin/relay_client.py:404-417 | in every run an open frame gives an open connection that holds the id and is offered last, if and only if fewer than eight wait to be accepted; otherwise it is refused and the read loop ends; an earlier connection of the id is closed |
| `Hosting.OfferedAreHandedOut` | src/mercury_relay_plugin/relay_client.py:225-226 | in every run the connections offered are those handed out, in order, and then those that wait; none twice, and never more than eight wait |
| `Hosting.EndedIff` | src/mercury_relay_plugin/relay_client.py:360-425 | in every run a step closes an open connection if and only if it is an open or close frame for its id, a frame that overflows its queue, its own close, or the end of the socket |
| `Hosting.OpenReceives` | src/mercury_relay_plugin/relay_client.py:130-136 | in every run a receive on an open connection gets the first frame queued, and waits only if there is none |
| `Hosting.FrameIsQueued` | src/mercury_relay_plugin/relay_client.py:113-122 | in every run a frame for an open connection with room is queued last and leaves it open |
| `Hosting.SentIff` | src/mercury_relay_plugin/relay_client.py:436-454 | in every run a waiting send goes out, with its own id and data, if and only if it has its turn on the socket it saw, its connection is still open and the socket takes it |
| `Hosting.SendGoesOut` | src/mercury_relay_plugin/relay_client.py:436-454 | so a send by an open connection that has its turn at once goes out |
| `Hosting.Reconnects` | src/mercury_relay_plugin/relay_client.py:286-350 | after a failed read loop the clean-up and a new connect start it on a fresh socket with no connection left |
| `RelayObjects.HostedDeviceConnection.Feed` | src/mercury_relay_plugin/relay_client.py:113-122 | in place: queued, dropped when closed, or refused when full |
| `RelayObjects.HostedDeviceConnection.MarkClosed` | src/mercury_relay_plugin/relay_client.py:124-128 | in place: closed, with the end marker if there is room |
| `RelayObjects.HostedDeviceConnection.Receive` | src/mercury_relay_plugin/relay_client.py:130-136 | in place: the end, the next frame, or a wait |
| `RelayObjects.CloudflareRelayConnector.HandleOpen` | src/mercury_relay_plugin/relay_client.py:404-417 | in place: retire the stale connection, register and offer the new one, or refuse it, as `Hosting.OpensIff` says |
| `RelayObjects.CloudflareRelayConnector.HandleData` | src/mercury_relay_plugin/relay_client.py:367-380 | in place: route a frame by id; overflow closes that one connection |
| `RelayObjects.CloudflareRelayConnector.CloseDevice` | src/mercury_relay_plugin/relay_client.py:464-473 | in place: the map changes only if it holds this very object |
| `RelayObjects.CloudflareRelayConnector.EndAllConnections` | src/mercury_relay_plugin/relay_client.py:422-425 | the loop closes every connection of the map and empties it |
| `RelayObjects.CloudflareRelayConnector.Publish` | src/mercury_relay_plugin/relay_client.py:441-458 | in place: the second check and the pacing of one send |
| `Recovery.EveryRunKeeps` | src/mercury_relay_plugin/lease_recovery.py:133-219 | in every run from the empty store rows have unique keys, strictly rising revisions and the key of their own event, and their number keeps within the cap |
| `Recovery.TerminalStays` | src/mercury_relay_plugin/lease_recovery.py:133-219 | in every run a terminal row stays unchanged until it is expired, revoked or evicted as older than all that remain |
| `Recovery.PutNeverDowngrades` | src/mercury_relay_plugin/lease_recovery.py:162-178 | a put for a child with an unexpired terminal row keeps that row, writes nothing and hands back the stored payload and revision |
| `Recovery.PutIsStored` | src/mercury_relay_plugin/lease_recovery.py:162-192 | after a put that returns, the child's row, if kept, is the event that the caller was handed back |
| `Recovery.SnapshotShows` | src/mercury_relay_plugin/lease_recovery.py:194-206 | the stored snapshot shows only unexpired rows of the scope and of authorized profiles |
| `Recovery.HistoricalKeepsChild` | src/mercury_relay_plugin/lease_recovery.py:194-206 | showing a row as history keeps its child and, if terminal, its payload |
| `Recovery.SnapshotKeepsTerminal` | src/mercury_relay_plugin/lease_recovery.py:386-420 | a child is merged as terminal if and only if its stored row shown is terminal or some authorized live event of it is |
| `Recovery.TasksAreNotDowngraded` | src/mercury_relay_plugin/lease_recovery.py:386-420 | a non-terminal task of the snapshot has no terminal evidence, stored and shown or live |
| `Upkeep.SavedIsLongestRest` | src/mercury_relay_plugin/lease_recovery.py:133-160 | a save keeps the unexpired rows from some position on: with every earlier row the store was over its cap or did not fit its file, and there it fits |
| `Upkeep.PutKeepsAll` | src/mercury_relay_plugin/lease_recovery.py:162-192 | a put that overrules nothing and has room keeps every unexpired row of another child and adds the new one |
| `Upkeep.ShownIff` | src/mercury_relay_plugin/lease_recovery.py:194-206 | in every run a snapshot that is not cut short shows a stored event if and only if an unexpired row of the scope and of an authorized profile holds it |
| `Upkeep.UncutShowsAll` | src/mercury_relay_plugin/lease_recovery.py:194-206 | a snapshot shows at most 64 stored events, and one that does not say that it was cut leaves out nothing it may show |
| `Upkeep.HistoricalIsUnknown` | src/mercury_relay_plugin/lease_recovery.py:199-205 | a row as history shows it is not live, and its status is unknown unless terminal; all else stands as stored |
| `Upkeep.RevokedIff` | src/mercury_relay_plugin/lease_recovery.py:208-219 | a revocation leaves no row of the device or its channels and takes no other that is not expired or in excess |
| `Upkeep.OfDeviceIff` | src/mercury_relay_plugin/lease_recovery.py:208-218 | a stored device is the revoked one or one of its channels, nothing else |
| `Upkeep.MergeShowsLast` | src/mercury_relay_plugin/lease_recovery.py:402-416 | the merge shows at each place the last allowed live event, or the last terminal one if there is terminal evidence, or else what was stored |
| `Upkeep.TrimmedIsLongest` | src/mercury_relay_plugin/lease_recovery.py:417-420 | a snapshot leaves out only tasks with which the list was too long |
| `Upkeep.SeenIsTask` | src/mercury_relay_plugin/lease_recovery.py:323-373 | a child event that is seen makes its child the newest task, under the payload laid over what was known, or under what the store holds as terminal |
| `Upkeep.DisplacingIsTold` | src/mercury_relay_plugin/lease_recovery.py:370-373 | an observation that gives up the task of another child says that something was cut |
| `Upkeep.AskedThenBound` | src/mercury_relay_plugin/lease_recovery.py:245-322 | the reply to a request that waits binds its session to the profile that was asked for |
| `Upkeep.WaitsIff` | src/mercury_relay_plugin/lease_recovery.py:245-265 | a request waits for its reply if and only if its profile is an identifier and authorized |
| `Recovery.EveryLiveRunKeeps` | src/mercury_relay_plugin/lease_recovery.py:245-384 | in every run of requests, replies and child events, whatever others do with the shared store: tasks are distinct, at most 64, each under the child that its payload names, and the store stays sound |
| `Recovery.TerminalTaskStays` | src/mercury_relay_plugin/lease_recovery.py:287-373 | over every run, a child once terminal stays terminal among the tasks, until a new child is observed while it is the oldest of 64 |
| `Recovery.SeeKeepsTerminalIff` | src/mercury_relay_plugin/lease_recovery.py:350-373 | a child event leaves a terminal task exactly as it is, unless the task is the oldest of a full list and the event of a new child is recorded: and then it is dropped |
| `Recovery.ReplyRevises` | src/mercury_relay_plugin/lease_recovery.py:294-322 | a reply keeps every task in its place; only tasks of the session it binds change, and they say the same as before or what the store held as terminal under the proven key |
| `Recovery.ReplyChangesIff` | src/mercury_relay_plugin/lease_recovery.py:306-322 | for every reply, whatever its writes, the clock and the sizes do: a task changes what it says if and only if the reply binds its session, no write for an earlier task of the session fails, and the store as it then is, pruned at the time of its put, holds a terminal event under the proven key that says something else |
| `Recovery.FirstTaskChangesIff` | src/mercury_relay_plugin/lease_recovery.py:306-322 | for the first task of the session that store is the one before the reply |
| `Recovery.TerminalTaskIsChanged` | src/mercury_relay_plugin/lease_recovery.py:162-172 | a concrete run in which a task reported as completed says failed after the reply to its session |
| `RecoveryObjects.RecoveryStore.Save` | src/mercury_relay_plugin/lease_recovery.py:133-160 | the loop drops the oldest rows until the encoding fits |
| `RecoveryObjects.RecoveryStore.Put` | src/mercury_relay_plugin/lease_recovery.py:162-192 | in place: the store mutates, saves and, when the write fails, restores exactly what was there |
| `RecoveryObjects.RecoveryStore.Snapshot` | src/mercury_relay_plugin/lease_recovery.py:194-206 | the loop gives the rows shown, at most 64, and whether any were cut |
| `RecoveryObjects.RecoveryStore.Revoke` | src/mercury_relay_plugin/lease_recovery.py:208-219 | in place: every row of the device and its channels goes |
| `RecoveryObjects.MergeTasks` | src/mercury_relay_plugin/lease_recovery.py:386-420 | the merge loops give the tasks of the specification |
| `RecoveryObjects.RecoveryProjection.Request` | src/mercury_relay_plugin/lease_recovery.py:245-265 | in place: a request of an authorized profile waits for its reply; the oldest beyond 64 go |
| `RecoveryObjects.RecoveryProjection.Observe` | src/mercury_relay_plugin/lease_recovery.py:323-373 | in place: merge, persist, shelve |
| `RecoveryObjects.RecoveryProjection.ObserveReply` | src/mercury_relay_plugin/lease_recovery.py:294-322 | in place: the refusals of a reply, then the binding, then the tasks of its session |
| `RecoveryObjects.RecoveryProjection.PersistTasks` | src/mercury_relay_plugin/lease_recovery.py:318-321 | the loop stores the tasks of a session one after the other until a write fails |
| `RecoveryObjects.RecoveryProjection.Persist` | src/mercury_relay_plugin/lease_recovery.py:375-384 | in place: an event gets the binding of its session, and what the store knows better comes back |
| `Galois.TablesAreGood` | src/mercury_relay_plugin/_vendor/segno/consts.py:676-720 | the antilogarithm table is a full cycle of powers of x in GF(256) modulo 0x11d, written out twice, and the logarithm table inverts it |
| `Galois.PowersMultiply` | src/mercury_relay_plugin/_vendor/segno/consts.py:676-720 | adding table indices multiplies in the field, by a multiplication that uses no table |
| `ReedSolomon.ErrorWords` | src/mercury_relay_plugin/_vendor/segno/encoder.py:574-586 | for every block and generator, data followed by the error words is a multiple of the generator, with an explicit quotient |
| `ReedSolomon.OneRemainder` | src/mercury_relay_plugin/_vendor/segno/encoder.py:574-586 | only one list of error words can do that, so they are the remainder of data times x^n |
| `ReedSolomon.SubtractInPlace` | src/mercury_relay_plugin/_vendor/segno/encoder.py:580-585 | the inner loop subtracts the leading coefficient times the generator |
| `ReedSolomon.MakeBlocks` | src/mercury_relay_plugin/_vendor/segno/encoder.py:556-587 | the codewords are cut as the error correction table says, and each block gets total minus data error words, with which it is a codeword of its generator |
| `Generators.CodewordVanishes` | src/mercury_relay_plugin/_vendor/segno/encoder.py:574-586 | a multiple of a generator vanishes wherever the generator does, by evaluation in the field |
| `Generators.GeneratorVanishes` | src/mercury_relay_plugin/_vendor/segno/consts.py:655-674 | a row of logarithms that follows the recurrence of the coefficients is a generator that vanishes at 2^i for every i below its length |
| `GeneratorTable.TableGeneratorVanishes` | src/mercury_relay_plugin/_vendor/segno/consts.py:655-674 | each of the 18 rows of the program's table has the length it stands for and vanishes at 2^i for every i below it (Annex A of ISO/IEC 18004:2015) |
| `GeneratorTable.SyndromesVanish` | src/mercury_relay_plugin/_vendor/segno/encoder.py:556-587 | every block made with the program's tables, followed by its error words, has only zero syndromes |
| `GeneratorTable.TableCovers` | src/mercury_relay_plugin/_vendor/segno/encoder.py:569-571 | every plan whose numbers of error words occur in the table can be served by it |
| `Placement.PathVisitsOnce` | src/mercury_relay_plugin/_vendor/segno/encoder.py:490-499 | for every size 4v+17 the traversal visits each module outside column 6 exactly once (section 7.7.3 of ISO/IEC 18004:2015) |
| `Placement.PlacementIsFaithful` | src/mercury_relay_plugin/_vendor/segno/encoder.py:466-506 | a bit stream that fits stands on distinct free modules, everything else is untouched, and reading back in traversal order recovers it |
| `Placement.WalkFills` | src/mercury_relay_plugin/_vendor/segno/encoder.py:490-503 | walking a path without repetition fills its free modules in order, as far as the bits reach |
| `Placement.AddCodewords` | src/mercury_relay_plugin/_vendor/segno/encoder.py:466-506 | the nested loops compute that walk in place, and fail exactly when bits are left |
| `CheckChar.SubstitutionIsCaught` | src/mercury_relay_plugin/routing_auth.py:112-124 | replacing one character changes the check character, except exactly when the two are A and 7 |
| `CheckChar.SwapIsCaught` | src/mercury_relay_plugin/routing_auth.py:112-124 | exchanging two different characters at any two positions changes it, except exactly when they are A and 7 |
| `CheckChar.IndexIsPosition` | src/mercury_relay_plugin/routing_auth.py:121-123 | the index of a character is its only position in the alphabet, and the characters with an index are exactly those of the alphabet |
| `CheckChar.Check` | src/mercury_relay_plugin/routing_auth.py:112-124 | malformed bodies are refused, and the check character is never 7 |

## Left out

- Real cryptography, SHA-256, base64, JSON and UTF-8: parameters, or values already parsed; identifiers are opaque.
- The end-to-end claim stops where a text is handed to the lease: the inner queue has a budget of 8 MiB while
  frames may have 16 MiB.
- The inner virtual WebSocket: its two bounded queues and byte counters enter only as an outcome of a feed.
- The channel object holds its handshake as a value: the in-place handshake of `NoiseState` is proved to compute
  the same functions, but the aliasing between channel and handshake object is not modelled.
- A handshake state after a failed message: the program drops it, and the model does not describe it.
- Admission as an object: opens suspend in the middle, so they are steps over values; the envelope, the profile
  check of the first stretch, what Hermes answers and whether an attachment is accepted are free choices. Expiry
  of pending records during an epoch read is a step of the repository of its own.
- The local mutation ledger, session reads, folders, images and transcripts of the lease.
- Lease expiry timers: a release may come at any time instead.
- Device names and labels; the bearer file, locks and atomic replacement of the repository's file: a save
  succeeds or fails as a whole.
- Push: preview text and keys, routes for taps and arrivals, rows loaded from a file, waking several handles in
  one call (it is several steps), and the fairness of the event loop. New handles are taken to be new.
- Recovery: the list of bindings of a snapshot, a lease without a store, and a store read from a file.
- Host socket: reconnecting with backoff, parsing of control frames, the text sent to close a device, the
  journal and metrics. Two receives at once on one connection are not modelled.
- Floating-point rounding in the pacing: times are real numbers.
- Placement: Micro QR; masks, format and version information.
- FastAPI routes, the desktop plugin, management, updates and SVG output.
