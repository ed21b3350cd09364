# OpenAir: a model of its protocol cores

OpenAir connects a user's own devices. This project models the parts of it where state, protocol and
byte layout meet, and proves what those parts promise over every input, every run and every reachable
state.

| file | what it models |
|---|---|
| `Signing.dfy` | the three byte strings a device signs |
| `Unlock.dfy` | the initiator's unlock sessions, running operations and passphrase throttle |
| `Auth.dfy`, `Session.dfy` | the acceptor's proof verifier with its pruned nonce cache, and the gate every message passes |
| `Gate.dfy` | that gate read from outside: the verdict on every message, frame and stream |
| `OwnedLevel.dfy` | both machines, their two clocks and the network between them: authorisation end to end |
| `Deadline.dfy` | readers, deadline setters and timer callbacks of a connection, in every interleaving |
| `Routes.dfy` | direct routes, their reverse index and the stable address of a peer |
| `Punch.dfy`, `Stun.dfy` | hole punching between two endpoints, and the STUN codec |
| `AnnexB.dfy` | the incremental splitter of an H.264 byte stream |
| `Sas.dfy`, `Pairing.dfy` | the pairing transcript and the two-role exchange |
| `Ipc.dfy` | request, reply and prompt correlation with time-outs and shutdown |
| `Framing.dfy` | envelope, relay and infrastructure framings |
| `TrustStore.dfy`, `Sorting.dfy` | the peer store, in memory and on disk, under write failure |
| `Discovery.dfy` | the table of heard peers and the events that describe it |
| `Announcing.dfy`, `Utf8.dfy`, `AddrRank.dfy` | announce encoding, name truncation, address ranking |
| `Bytes.dfy` | octet strings, fixed-width integers and the syntax of a DeviceID |

Two forms recur. An object the program updates in place is a class whose methods state the whole new
state as a function of the old one; what the program promises is then proved of that function. A
concurrent or two-party protocol is a step relation whose steps are the program's own critical
sections, sends and waits; theorems about it quantify over every sequence of enabled steps.

Ed25519 verification, SHA-256 and the id derived from a key are function-valued parameters. Nothing
is assumed of the hashes. Where a theorem needs unforgeability it says so in its precondition: whatever
verifies under the key was signed. Times are integers in nanoseconds; a theorem that needs a clock not
to run backwards requires it.

## Findings

Some promises hold only under a condition. The condition is proved exact, or a concrete input shows
that it is needed.

- A registration's length prefixes are wrapping `uint32`s. With strings shorter than n, all registrations of a
  device have distinct inputs iff n <= 2^32, whatever the number of endpoints
  (`Signing.RegistrationsDistinctIff`); a 4 GiB string trades places with its neighbour
  (`Signing.LongFieldsCollide`).
- Pruning the nonce cache cannot be seen, in any ordered run over a set of proofs and under any key, iff the
  set holds one issue time for each nonce (`Auth.PruningIsUnobservableIff`). Any two
  proofs of one nonce with different issue times, for whatever operations, give a run that a pruned cache answers
  differently from a full one (`Auth.PruningShowsOnReusedNonce`).
- The route table and its index are inverse maps exactly as long as no promotion lands on an address
  another peer holds (`Routes.InverseKeptIffUnshared`); after one that does, the first peer's packets are
  reported as the second's (`Routes.SharedAddressMisattributes`).
- `sweep` reads and demotes in separate critical sections. The route it drops is the one it saw dead iff
  nothing in between promoted the peer or was heard from its indexed address, and the peer's packets reach a
  relay iff one is still set at the demotion (`Routes.SplitSweepIsRightIff`). In a pass of at most 45 seconds,
  a dropped route had lived for more than 45 seconds with something to take over iff in between the peer was
  not promoted and the relay not lost (`Routes.SweptRouteWasOldIff`). `Routes.SplitSweepDropsFreshRoute` is
  one way it fails.
- Both pairing screens show the same digits under the exact condition that makes the two transcripts equal:
  both privilege keys survive the other side's check, or both are dropped and were equal
  (`Pairing.KeysAgree`, `Pairing.TranscriptsAgreeIff`). Devices that send no privilege key at tier none meet
  it (`Pairing.ConsistentKeysAgree`). The second alternative exists because the transcript does not say which privilege key belongs to which
  identity key.
- Discovery sends an event after releasing its lock, so events may overtake one another. Whatever is sent in
  the end, a subscriber's view is that of the table iff for every peer the event sent last says what the event
  made last says (`Discovery.ViewIsRightIff`). Events of different peers overtake one another without harm
  (`Discovery.OvertakingOtherPeersIsHarmless`); a peer heard, swept and heard again is missing from the view if
  the sweep's `Lost` is sent after the second `Found` (`Discovery.OvertakenFoundHidesPeer`).
- An envelope stream cut inside a frame never looks like a clean end. A relay or infrastructure stream
  does, exactly when the cut falls behind the header of a frame with a payload
  (`Framing.CutFramesMayLookClean`), because the error of the second read is passed on as it is.
- A reader that waits without first looking at the deadline can be lost for ever
  (`Deadline.BlindReaderIsLost`); the check at the top of `ReadFrom` is what `NoLostTimeout` rests on.

## Model

| member | source | states |
|---|---|---|
| Bytes.DeviceIdAlphabet | internal/identity/deviceid.go:32-46 | a DeviceID is valid iff it has 16 characters, each from a to z or 2 to 7 |
| Signing.RendezvousSigningInput | internal/identity/rendezvous.go:43-60 | the appending loop produces exactly the specified layout, or refuses an invalid DeviceID |
| Signing.OwnedInputInjective | internal/identity/identity.go:364-379 | an Owned-proof input determines target, capability, message type, nonce and issue time |
| Signing.RelayInputInjective | internal/identity/relay.go:46-62 | a relay challenge input determines the device and both nonces |
| Signing.RendezvousInputInjective | internal/identity/rendezvous.go:43-60 | a registration input determines the id, every endpoint and where the list splits, the relay and both times, for any list of strings below 2^32 bytes |
| Signing.LongFieldsCollide | internal/identity/rendezvous.go:43-60 | a string of 2^32 bytes makes two different registrations with one input |
| Signing.RegistrationsDistinctIff | internal/identity/rendezvous.go:43-60 | with strings shorter than n, all registrations of a device have distinct inputs iff n <= 2^32, however many endpoints they list |
| Signing.InputsInjective | internal/identity/identity.go:358-379 | over all three layouts one byte string belongs to one request, so no output of one layout is an output of another |
| Signing.RegistrationIsGenuine | internal/identity/rendezvous.go:79-94 | with an unforgeable signature an accepted registration is, field for field, one its holder was asked to sign |
| Signing.OwnedLayout | internal/identity/identity.go:358-379 | defined iff the target is a DeviceID and the nonce has 32 bytes, and then 75 octets: which field lies where, the numbers least significant octet first, the time in two's complement |
| Signing.RelayLayout | internal/identity/relay.go:46-62 | the same for the 104 octets of a relay challenge |
| Signing.RendezvousLayout | internal/identity/rendezvous.go:43-60 | the same for a registration of any number of endpoints: where each string and its length lie, and the two times at the end |
| Signing.RegistrationVerdict | internal/identity/rendezvous.go:79-94 | accepted iff key length, derived id, id syntax and signature are right; which error each other one gives |
| Unlock.FileIdentity.Unlock | internal/identity/unlock.go:159-219 | the new vault and reply in every case: bad target, no key, throttled, wrong passphrase, granted until when |
| Unlock.FileIdentity.Lock | internal/identity/unlock.go:226-236 | drops every grant and the key, and nothing else |
| Unlock.FileIdentity.LockPeer | internal/identity/unlock.go:239-252 | drops one grant, and the key with the last one |
| Unlock.FileIdentity.UnlockedUntil | internal/identity/unlock.go:254-266 | answers from a live grant only, and expires the others |
| Unlock.FileIdentity.SignOwned | internal/identity/unlock.go:297-327 | the vault and the proof, or the refusal, in every case |
| Unlock.FileIdentity.BeginOwned | internal/identity/unlock.go:344-362 | the operation's deadline is fixed from the grant at its start |
| Unlock.FileIdentity.ExpireLocked | internal/identity/unlock.go:394-411 | removes exactly the lapsed grants, and the key if none is left |
| Unlock.KeyHeldIffGranted | internal/identity/unlock.go:159-411 | in every run the decrypted key is held iff some grant is recorded |
| Unlock.NoLapsedGrants | internal/identity/unlock.go:394-404 | after any expiring entry point no lapsed grant remains |
| Unlock.SigningNeedsLiveGrant | internal/identity/unlock.go:297-327 | no signature without a grant for that very target, live at that instant, and it covers exactly the call |
| Unlock.OperationOutlivesItsGrant | internal/identity/unlock.go:344-387 | whatever is locked or extended later, an operation passes Check iff it was not ended and now is at most an hour past the expiry at its start, or the policy was never |
| Unlock.ThrottleBound | internal/identity/unlock.go:171-186 | with no success in between, the N-th counted failure is at least (N-3)(N-2) seconds after the first for 3 <= N <= 18 and 240 + 30(N-18) beyond |
| Unlock.ThrottleBoundIsTight | internal/identity/unlock.go:413-429 | a run attains the bound for every N whose time a 64-bit millisecond clock can show, so it is the exact price of N guesses |
| Unlock.SigningFollowsHistory | internal/identity/unlock.go:159-404 | in every ordered run, signing and beginning succeed for a target iff the last unlock of it was granted, nothing locked it since, and what that unlock asked for (never, its lifetime, or 6 h) has not run out |
| Unlock.UnlockLasts | internal/identity/unlock.go:202-219 | after a granted unlock and any calls that neither unlock nor lock its target, its grant is the one asked for |
| Unlock.LockLasts | internal/identity/unlock.go:226-252 | after a lock of a target it has no grant until an unlock of it is granted |
| Unlock.OthersUnaffected | internal/identity/unlock.go:159-252 | calls about other targets leave a target the grant it had |
| Unlock.UnlockVerdict | internal/identity/unlock.go:159-219 | when an unlock is refused and with what, which key it leaves, and what becomes of the failure count |
| Auth.AuthVerifier.Receive | internal/session/auth.go:113-132 | malformed, badly sized and accepted proofs; at eight pending the oldest goes |
| Auth.AuthVerifier.PruneLocked | internal/session/auth.go:197-203 | forgets exactly the nonces past the window |
| Auth.AuthVerifier.Consume | internal/session/auth.go:138-184 | spends the first matching proof: admitted, stale, reused, or no proof |
| Auth.HeldAreNewest | internal/session/auth.go:113-132 | whatever is presented, the proofs held are the newest eight well-sized ones |
| Auth.PruningIsUnobservable | internal/session/auth.go:186-203 | for ordered clocks and one issue time per nonce, every run gives the answers of a verifier that never forgets |
| Auth.PruningIsUnobservableIff | internal/session/auth.go:138-203 | over a set of well-sized proofs, no ordered run under any keys tells the two verifiers apart iff the set holds one issue time per nonce |
| Auth.PruningShowsOnReusedNonce | internal/session/auth.go:138-203 | two proofs of one nonce with different issue times, each valid for some operation and key, have a run that the two verifiers answer differently |
| Auth.AcceptedOnce | internal/session/auth.go:138-203 | one nonce and issue time are accepted at most once per session, whatever is presented |
| Auth.BarredStaysBarred | internal/session/auth.go:160-203 | an accepted proof stays remembered or has aged past the clock check for good |
| Session.Sess.AuthorizeInbound | internal/session/auth.go:274-337 | verifier state and decision, with the trust store read again for this message |
| Session.Sess.Dispatch | internal/session/session.go:534-580 | what happens to each control frame: held, ignored, queued with its owned mark, rejected with its code |
| Session.Sess.ServeStream | internal/session/session.go:603-668 | what happens to each capability stream, proof frame first or not |
| Session.Sess.DispatchDatagram | internal/session/session.go:508-532 | which datagrams reach their capability; above level Trusted only with a record in force that is at least at the required level |
| Session.OwnedNeedsProofAndLevel | internal/session/auth.go:274-337 | served as owned only on a matching, fresh, unused proof, which is then unusable; and any record found is at least at the required level |
| Session.SpendableProofIsServed | internal/session/auth.go:274-337 | conversely such a proof is enough, unless the record in force is too low |
| Session.RevocationIsImmediate | internal/session/auth.go:231-337 | once the lookup finds a lower level, no control frame, stream or datagram for that capability passes |
| Session.Negotiate | internal/session/session.go:377-397 | the loop fills the map that the later entries of the remote list define |
| Session.NegotiationAgrees | internal/session/session.go:345-397 | both ends arrive at the same capabilities and versions: what both listed, without 0 |
| Session.LastEntryDecides | internal/session/session.go:377-397 | the last entry for an id decides whether it is in use and at which version |
| Gate.VerdictIsDue | internal/session/auth.go:274-337 | the verdict on every message from the proofs held, the key and level in force, the clock and the nonces remembered: served plain, served as owned, or turned away with which code |
| Gate.MemoryIsDue | internal/session/auth.go:138-203 | what the verifier holds and remembers afterwards, in every case |
| Gate.ControlFrameVerdict | internal/session/session.go:534-580 | which control frames are queued, with which mark, which rejected, with which code, which held, and what is held then |
| Gate.StreamVerdict | internal/session/session.go:603-668 | which streams are opened, for which operation and with which mark, with or without a proof frame first |
| Gate.StreamRefusal | internal/session/session.go:603-668 | the code every other stream is reset with |
| Gate.DatagramVerdict | internal/session/session.go:508-532 | exactly which datagrams reach their capability |
| OwnedLevel.AdmissionIsAuthorised | internal/session/auth.go:138-337 | every owned admission traces to a signature the initiator made for exactly this acceptor, capability and message type, under a grant live at signing, issued within 60 s of the acceptor's clock; a record found was high enough |
| OwnedLevel.AdmissionsAreInjective | internal/session/auth.go:138-203 | two admissions never spend the same signed input |
| OwnedLevel.HonestProofIsAdmitted | internal/identity/unlock.go:297-327 | unlocking, signing, presenting and operating is an allowed run and does admit |
| OwnedLevel.DispatchIsSteps | internal/session/session.go:534-580 | a control frame queued as owned is one admission of that model, any other frame none |
| OwnedLevel.StreamIsSteps | internal/session/session.go:603-668 | the same for a capability stream whose proof may ride in its first frame |
| Deadline.NoLostTimeout | internal/path/conn.go:266-305 | in every reachable state a passed deadline leaves no reader waiting without an enabled wake, and no channel is closed twice |
| Deadline.TimeoutIsDelivered | internal/path/conn.go:502-526 | that wake, taken alone, brings the reader back with a timeout |
| Deadline.TimeoutIsReal | internal/path/conn.go:266-305 | no timeout is reported before the deadline in force |
| Deadline.BlindReaderIsLost | internal/path/conn.go:266-305 | the check at the top of the loop is needed |
| Deadline.CallVerdict | internal/path/conn.go:266-305 | in every reachable state the deadline in force is the one set last and at most one timer is armed; a call made then times out at once iff that deadline has come, and otherwise waits on an open channel, ready for a packet |
| Routes.Conn.SetRelay | internal/path/conn.go:141-152 | replaces the relay and touches nothing else |
| Routes.Conn.RelayEnded | internal/path/conn.go:225-236 | clears the relay only if it is still the one that ended |
| Routes.Conn.HandleRelayed | internal/path/conn.go:225-250 | a relayed packet is reported under its sender's stable address |
| Routes.Conn.HandleUdp | internal/path/conn.go:203-222 | a QUIC packet refreshes its route and is reported under the peer, or under its own source |
| Routes.Conn.WriteTo | internal/path/conn.go:312-337 | direct if routed, else by relay, else no route |
| Routes.Conn.Promote | internal/path/conn.go:362-377 | the whole table after a promotion, the old address unindexed |
| Routes.Conn.Demote | internal/path/conn.go:383-396 | the whole table after a demotion, with its cooldown |
| Routes.Conn.CanUpgrade | internal/path/conn.go:411-424 | no upgrade while routed or cooling down |
| Routes.Conn.Class | internal/path/conn.go:428-441 | validated iff routed, and then at the routed address; relayed iff carried otherwise |
| Routes.Conn.Snapshot | internal/path/conn.go:463-474 | each route once, with how long it has been silent |
| Routes.Conn.Sweep | internal/path/conn.go:463-487 | run alone, drops exactly the dead routes and sends exactly one ping on each other route quiet for more than 15 s, with its token, to its address |
| Routes.IndexAlwaysSound | internal/path/conn.go:362-396 | in every run byAddr[a] = p implies routes[p].addr = a |
| Routes.InverseKeptIffUnshared | internal/path/conn.go:362-377 | a step keeps the two maps inverse iff it promotes no address another peer holds |
| Routes.InverseAlways | internal/path/conn.go:362-396 | in runs that never share an address the two maps are exact inverses |
| Routes.StableAddress | internal/path/conn.go:184-337 | a peer's packets, by relay or promoted address, are reported under its one stable address, no other packet is, and replies go back the same way |
| Routes.SharedAddressMisattributes | internal/path/conn.go:362-377 | two peers promoted to one address: the first one's packets are reported as the second's |
| Routes.SweepDropsOnlyDeadRoutes | internal/path/conn.go:463-487 | a swept route had lived and been silent for more than 45 s, and a relay takes over |
| Routes.HeardRouteSurvives | internal/path/conn.go:203-222 | a packet from a peer's promoted address keeps its route through any run of sweeps for 45 s, unless the peer is demoted or promoted otherwise |
| Routes.SplitSweepIsRightIff | internal/path/conn.go:463-487 | with any events between snapshot and demotion: the route dropped is the one seen dead iff nothing renewed it, and a relay takes over iff one is still set |
| Routes.SweptRouteWasOldIff | internal/path/conn.go:463-487 | in a pass of at most 45 s, the dropped route had lived more than 45 s with a relay to take over iff in between the peer was not promoted and the relay not lost |
| Routes.LiveIdleRouteIsKept | internal/path/conn.go:443-487 | if sweeps come at most g apart and each ping is answered within r, with 15 s + g + r <= 45 s, an idle route is never swept |
| Routes.SplitSweepDropsFreshRoute | internal/path/conn.go:463-487 | a promotion in between: the pass drops the fresh route |
| Routes.NoEarlyUpgrade | internal/path/conn.go:383-424 | for 30 s after a demotion no upgrade is offered, whatever else happens |
| Routes.RoutesFollowHistory | internal/path/conn.go:362-441 | in every run a peer's route is that of its last promotion not undone since, with that address and token; it may be upgraded iff it has none and lost none within 30 s; it is carried iff it was promoted, relayed from or written to |
| Routes.PingsCarryLastPromotion | internal/path/conn.go:463-487 | each ping of a sweep carries the token, and goes to the address, of the peer's last promotion |
| Routes.SweepFollowsHistory | internal/path/conn.go:463-487 | in every run, which peers a sweep gives up on and which it pings, from when each was last heard |
| Stun.MappedAddress | internal/path/stun.go:116-161 | the attribute loop returns the last decodable XOR-MAPPED-ADDRESS, else the first decodable MAPPED-ADDRESS, else nothing, of the padded list of RFC 8489 section 14 |
| Stun.TakeAttribute | internal/path/stun.go:139-152 | what one attribute does to the result so far |
| Stun.TakeAllIsMapped | internal/path/stun.go:127-161 | one-at-a-time assignment meets that declarative choice |
| Stun.ParseStun | internal/path/stun.go:116-161 | on any bytes: when it is not STUN, when truncated, else type, id and address |
| Stun.AttributesRoundTrip | internal/path/stun.go:127-161 | the walk recovers any attribute list from its padded encoding |
| Stun.XorAddressRoundTrip | internal/path/stun.go:83-113 | decoding an encoded XOR-MAPPED-ADDRESS gives back any IPv4 or IPv6 endpoint |
| Stun.BindingResponseRoundTrip | internal/path/stun.go:60-113 | parsing a binding response gives its type, id and endpoint, and only that endpoint |
| Stun.XorTwice | internal/path/stun.go:165-202 | masking twice is the identity |
| Stun.XorBit | internal/path/stun.go:165-202 | masking is exclusive or: each bit is 1 where the arguments differ |
| Stun.StunRecognised | internal/path/stun.go:51-57 | a packet is STUN iff it has 20 octets, two zero bits in front and the four octets of the cookie |
| Stun.AddressMeaning | internal/path/stun.go:165-202 | a value decodes to exactly the endpoint its octets carry, masked or plain, IPv4 or IPv6; any other value to none |
| Stun.AttributesLie | internal/path/stun.go:127-161 | the walk finds the attribute that lies at each place one is due, and stops only where none fits |
| Stun.LastXorIsMapped | internal/path/stun.go:116-161 | a message of any attributes yields its last XOR-MAPPED-ADDRESS, whatever stands before and after |
| Stun.FirstPlainIsMapped | internal/path/stun.go:116-161 | with no XOR-MAPPED-ADDRESS it yields its first MAPPED-ADDRESS |
| Punch.ProbeRoundTrip | internal/path/probe.go:62-92 | an encoded probe with a valid sender decodes to itself |
| Punch.DecodedProbeEncodes | internal/path/probe.go:77-92 | every accepted packet is the encoding of what it decodes to |
| Punch.ProbeLayout | internal/path/probe.go:62-75 | which probes encode, and where their parts lie in the 37 octets |
| Punch.ProbeRecognised | internal/path/probe.go:77-92 | which packets are probes |
| Punch.DemuxIsUnambiguous | internal/path/conn.go:184-201 | no packet is two of QUIC, STUN and probe |
| Punch.SprayDelay | internal/path/punch.go:228-237 | waits until the hint if it lies within two seconds ahead, else not at all |
| Punch.PunchState.Add | internal/path/punch.go:153-157 | adds one candidate |
| Punch.PunchState.Finish | internal/path/punch.go:159-168 | publishes the first result only, and the send finds room |
| Punch.PunchState.Receive | internal/path/punch.go:124-131 | takes the published result out of the channel |
| Punch.Prober.HandleProbe | internal/path/punch.go:170-201 | which attempt each probe changes, which route it refreshes and which pong is returned |
| Punch.AnsweredIff | internal/path/punch.go:170-201 | a probe is answered iff it is a ping whose sender is the peer of the attempt under its token or the peer its source is indexed for; the answer is a pong with that token and this device's id |
| Punch.HandledState | internal/path/punch.go:170-201 | all a probe changes: a ping's source joins the candidates of its attempt, the first pong becomes its result, the route it came by was heard now |
| Punch.PongsAnswerPings | internal/path/punch.go:87-201 | in every run, for every token and with strangers about, a device emits a pong only after hearing a ping it may answer, and that pong is the answer |
| Punch.KeepaliveIsAnswered | internal/path/punch.go:170-201 | a keepalive ping between routed peers is answered, and the answer refreshes the route, with no attempt under way |
| Punch.PunchIsTwoWay | internal/path/punch.go:87-201 | over a network that loses, repeats, reorders and re-addresses, an address is returned only after the peer heard this device's ping and this device heard the peer's pong from that address |
| Punch.AtMostOneResult | internal/path/punch.go:153-168 | in every run an attempt, its token taken over by another or not, publishes at most once, into a channel with room |
| Punch.PunchCanSucceed | internal/path/punch.go:87-201 | a run exists in which the attempt returns the peer's address |
| AnnexB.NextNal | internal/screen/capture.go:397-419 | the bounds of a complete unit lie within the buffer |
| AnnexB.FirstUnit | internal/screen/capture.go:397-419 | nextNAL finds a unit iff there are two start codes, and takes what lies between the first two |
| AnnexB.TakeUnits | internal/screen/capture.go:347-377 | the inner loop reaches the same buffer, open frame, frames and error as draining the state |
| AnnexB.SplitFrames | internal/screen/capture.go:326-390 | on any reads: which read ends the run, how, and which frames it sends; at end of stream those of the whole-stream definition |
| AnnexB.FeedTwice | internal/screen/capture.go:326-390 | two reads do what one read of both would have done |
| AnnexB.ChunkIndependence | internal/screen/capture.go:326-390 | frames, leftover and oversize error depend on the concatenated bytes alone |
| AnnexB.StartCodesAreAll | internal/screen/capture.go:397-419 | the list of start codes used as reference is complete and ascending |
| AnnexB.UnitsAreBetweenStartCodes | internal/screen/capture.go:397-419 | unit k is the stream between start codes k and k+1 short of at most one zero byte; the bytes from the last one on belong to no unit |
| AnnexB.SplitterMeetsDefinition | internal/screen/capture.go:326-390 | the incremental splitter emits the frames defined on the whole stream, each non-empty and at most 8 MiB |
| AnnexB.GroupsShape | internal/screen/capture.go:347-377 | every group but the first starts with the only AUD in it |
| AnnexB.GroupsKeepUnits | internal/screen/capture.go:347-377 | grouping neither loses, adds nor reorders units |
| AnnexB.FramesPartitionUnits | internal/screen/capture.go:326-390 | every frame but the first starts with the only AUD in it, and the frames hold exactly the units |
| AnnexB.WhereTheStreamStands | internal/screen/capture.go:326-390 | after any bytes: the frames sent are those an AUD has closed, the open frame holds the units since; it has failed for size iff with some unit the open frame outgrew 8 MiB, and had then sent the frames closed by that unit |
| AnnexB.FrameMeaning | internal/screen/capture.go:347-377 | a frame is its units' octets in order, and a keyframe iff one is an IDR slice or an SPS |
| Sas.Transcript | internal/pairing/sas.go:63-106 | defined iff keys and nonces have their lengths and the identity keys differ |
| Sas.OrderForgetsOrder | internal/pairing/sas.go:168-173 | ordering a pair remembers exactly its two elements |
| Sas.TranscriptDetermines | internal/pairing/sas.go:63-106 | two transcripts are equal iff the identity keys agree as a pair, the contributed privilege keys agree as a pair and the nonces agree by role |
| Sas.DigitsInjective | internal/pairing/sas.go:115-123 | zero padding keeps distinct values distinct |
| Sas.TranscriptLayout | internal/pairing/sas.go:63-106 | where the seven parts of a transcript lie in its 207 octets, the lower key of each pair first |
| Sas.DigitsAreResidue | internal/pairing/sas.go:115-123 | the six digits, read as a decimal, are the hash's first four octets, least significant first, modulo 1,000,000 |
| Sas.ScreensAgreeIff | internal/pairing/sas.go:115-123 | two screens agree iff those residues do |
| Pairing.Exchange.Deliver | internal/pairing/pairing.go:213-221 | accepts a message iff the slot of its kind is empty, and then it alone is filled |
| Pairing.InboxKeepsFirst | internal/pairing/pairing.go:108-122 | until something is taken out, the first message of each kind is the one that counts, however many follow |
| Pairing.Handler.InboxFor | internal/pairing/pairing.go:226-235 | early messages and the exchange itself find the same inbox |
| Pairing.Handler.Detach | internal/pairing/pairing.go:239-244 | removes one session's exchange and guard, and no other |
| Pairing.RunKeepsInv | internal/pairing/pairing.go:257-437 | in every run each side knows of the other only what that other's one opening message said |
| Pairing.SameSasOnBothScreens | internal/pairing/pairing.go:257-437 | in every run both Confirm callbacks see the same digits, under exactly the condition of TranscriptsAgreeIff |
| Pairing.TranscriptsAgreeIff | internal/pairing/pairing.go:443-491 | the two transcripts are equal iff both keys survive checkRemote, or neither does and they were equal |
| Pairing.StoredOnlyOnMutualAcceptance | internal/pairing/pairing.go:351-437 | a side stores the other only if both users accepted, with the TLS key, the id derived from it, level Trusted and the kept privilege key |
| Pairing.StoredOnlyWhenWritten | internal/pairing/pairing.go:351-437 | in every run a side ends up paired only with a record stored, and stores one only when writing it succeeded |
| Pairing.ShownIsResidue | internal/pairing/pairing.go:257-437 | in every run what a side shows reads as the residue of the hash of its own transcript |
| Pairing.ShownAgreeIff | internal/pairing/pairing.go:257-437 | so both users see the same digits iff the two residues are equal |
| Pairing.RemoteAcceptedIff | internal/pairing/pairing.go:443-491 | which far sides are let through, and what is kept of them |
| Pairing.ReachesDeclined | internal/pairing/pairing.go:351-437 | when one user declines, both sides give up and store nothing |
| Pairing.HonestDevicesPair | internal/pairing/pairing.go:257-437 | two honest devices whose users accept can both store each other |
| Ipc.PeekRequestId | internal/ipc/ipc.go:380-389 | the loop reads the varint of field 1, or 0 |
| Ipc.RequestIdRoundTrip | internal/ipc/ipc.go:370-389 | every set 64-bit request id at the front of a message is read back |
| Ipc.RequestIdMeaning | internal/ipc/ipc.go:380-389 | any varint of at most ten octets that fits 64 bits is read, shortest form or not |
| Ipc.EncodedOctets | internal/ipc/ipc.go:370-389 | the varint of an id octet by octet |
| Ipc.NoRequestId | internal/ipc/ipc.go:380-389 | an id that is absent, cut off or over 64 bits reads as 0 |
| Ipc.Peer.Register | internal/ipc/ipc.go:287-298 | a call enters its table unless the peer has failed |
| Ipc.Peer.Remove | internal/ipc/ipc.go:300-308 | a call's exit removes its own entry from its own table |
| Ipc.Peer.Route | internal/ipc/ipc.go:207-228 | which channel a message goes to, taken out of the right table |
| Ipc.Peer.Fail | internal/ipc/ipc.go:359-368 | closes once |
| Ipc.RepliesReachTheirCall | internal/ipc/ipc.go:207-332 | a call is sent at most one reply, and one it returns carries its own id and came by its own table |
| Ipc.ReplyIsDelivered | internal/ipc/ipc.go:207-332 | in any reachable state with a call waiting and the read loop at its top, a message of the call's kind that carries its id is taken in, handed over and returned by that call, each step enabled; for replies and prompt answers alike |
| Ipc.ReaderNeverBlocks | internal/ipc/ipc.go:218-228 | the read loop's send to a reply channel is always enabled |
| Ipc.LateRepliesChangeNothing | internal/ipc/ipc.go:300-332 | a finished call has no entry, and a later answer changes nothing |
| Ipc.UnknownRepliesChangeNothing | internal/ipc/ipc.go:218-231 | nor does an answer to a call never made |
| Ipc.FailureUnblocks | internal/ipc/ipc.go:283-332 | in every reachable state after failure, a call in its table and not returned has a way out of at most three steps, all its own, that stays open whatever the others do |
| Ipc.NothingRegistersAfterFailure | internal/ipc/ipc.go:287-298 | after failure a call not yet registered can only be refused |
| Ipc.TablesOnlyShrink | internal/ipc/ipc.go:287-308 | after failure no table entry is ever added |
| Framing.ByteReader.ReadFull | internal/session/envelope.go:147-165 | the io.ReadFull the framings rely on: all, nothing, or part, and the error of each |
| Framing.EncodeEnvelope | internal/session/envelope.go:118-142 | encodes exactly the legal envelopes, and which code refuses each other |
| Framing.DecodeEnvelope | internal/session/envelope.go:147-194 | what each byte string decodes to, and how much is consumed |
| Framing.EnvelopesRoundTrip | internal/session/envelope.go:118-194 | any sequence of legal envelopes decodes to itself and then a clean end |
| Framing.CutEnvelopesFail | internal/session/envelope.go:147-194 | a cut inside a frame yields the earlier frames and then a protocol violation |
| Framing.AcceptedEnvelopesReencode | internal/session/envelope.go:147-194 | every accepted envelope re-encodes to the bytes consumed |
| Framing.EnvelopeLayout | internal/session/envelope.go:118-142 | which envelopes are legal, and where their parts lie |
| Framing.DecodeVerdict | internal/session/envelope.go:147-194 | what any octets decode to: the refusals in the order they are made, and the envelope behind them |
| Framing.WriteFrame | internal/relay/relay.go:45-57 | writes exactly the frames that fit, the id checked by length only |
| Framing.WriteMessage | internal/infra/frame.go:59-73 | writes exactly the messages under the cap |
| Framing.ReadFrame | internal/relay/relay.go:61-79 | what each byte string reads as, for relay frames and for infra messages (internal/infra/frame.go:78-93) |
| Framing.FramesRoundTrip | internal/relay/relay.go:45-79 | sequences of relay frames with valid ids, and of infra messages, read back |
| Framing.CutFramesMayLookClean | internal/infra/frame.go:78-93 | a cut reads as a clean end iff it falls right behind a header |
| Framing.AcceptedFramesRewrite | internal/relay/relay.go:61-79 | every accepted frame rewrites to the bytes consumed |
| Framing.FrameLayout | internal/relay/relay.go:45-57 | where prefix, length and payload lie, and the caps of both framings |
| Framing.ReadVerdict | internal/infra/frame.go:78-93 | what any octets read as, for relay frames and infrastructure messages |
| TrustStore.OpenTrustStore | internal/identity/truststore.go:100-128 | which error each unreadable, mis-versioned or invalid file gives, else the loaded map |
| TrustStore.LoadedKeepsLast | internal/identity/truststore.go:120-127 | an id repeated in a file maps to its last record |
| TrustStore.ListsLoad | internal/identity/truststore.go:199-214 | writing a map out in id order and loading it gives the map |
| TrustStore.ListsUnique | internal/identity/truststore.go:199-214 | the list written depends on the map alone, not on map iteration |
| TrustStore.FileTrustStore.List | internal/identity/truststore.go:143-152 | every record once, in id order |
| TrustStore.FileTrustStore.FlushLocked | internal/identity/truststore.go:199-214 | the file becomes the listed map, or stays as it was |
| TrustStore.FileTrustStore.Put | internal/identity/truststore.go:160-179 | memory, disk and error of an insert, the rollback included |
| TrustStore.FileTrustStore.Delete | internal/identity/truststore.go:183-196 | memory, disk and error of a removal, the rollback included |
| TrustStore.OpenMirrors | internal/identity/truststore.go:100-128 | any store that opens starts mirrored and valid |
| TrustStore.StepMirrors | internal/identity/truststore.go:160-196 | every call keeps memory equal to the file and every record valid; one that reports an error changed neither |
| TrustStore.ReopenFindsAcknowledged | internal/identity/truststore.go:100-239 | after any run, reopening finds for each id the record of the newest acknowledged call, its id derived from its key, and an Owned one backed by a 32-byte key and a tier |
| TrustStore.CallVerdict | internal/identity/truststore.go:160-239 | after any calls: when an insert or a removal is refused and with what, what it does otherwise, and the version-1 file in id order it leaves |
| TrustStore.OpenVerdict | internal/identity/truststore.go:100-128 | a file opens iff it is of version 1 and every record is sound, and then holds the last record of each id; which error every other one gives |
| Sorting.SortKeys | internal/identity/truststore.go:201-205 | the keys of a map, each once, ascending |
| Sorting.SortedUnique | internal/identity/truststore.go:201-205 | sorting distinct ids has one possible result |
| Discovery.MergeAddrs | internal/discovery/discovery.go:235-244 | appends what is new, in order, and reports whether it did |
| Discovery.Discoverer.Observe | internal/discovery/discovery.go:168-226 | table and event for every sighting: own, invalid, empty, first, unchanged, changed |
| Discovery.Discoverer.Sweep | internal/discovery/discovery.go:270-284 | removes and returns exactly the stale peers, each once |
| Discovery.Discoverer.Peers | internal/discovery/discovery.go:134-152 | exactly the table, in id order |
| Discovery.EventsRebuildTable | internal/discovery/discovery.go:168-284 | after every step the events rebuild ids, addresses, names and versions; no event is idle; this device is in neither |
| Discovery.ViewIsRightIff | internal/discovery/discovery.go:221-268 | whatever is sent in the end, the view is that of the table iff for every peer the event sent last says what the event made last says |
| Discovery.OvertakingOtherPeersIsHarmless | internal/discovery/discovery.go:221-268 | so any order of sending that keeps each peer's own events in order rebuilds the table |
| Discovery.OvertakenFoundHidesPeer | internal/discovery/discovery.go:221-268 | a peer heard, swept and heard again, its last Found sent before the Lost: a run, a possible order of sending, the peer in the table and not in the view |
| Discovery.AddressesRepeatOnlyAtFirst | internal/discovery/discovery.go:228-244 | an address repeats only where the first sighting repeated it |
| Discovery.AddressesKeepOrder | internal/discovery/discovery.go:228-244 | until a peer is lost its addresses are only added to, at the end |
| Discovery.LostMeansSilent | internal/discovery/discovery.go:270-284 | a sweep drops a peer iff its newest accepted sighting is older than the limit |
| Discovery.TableFollowsSightings | internal/discovery/discovery.go:168-284 | in every run, who is in the table and with what, from the sightings since each was last dropped: newest name and version, first and last time, mDNS iff any was, and the addresses in the order heard |
| Discovery.EventsCarryTable | internal/discovery/discovery.go:168-284 | an event names the peer as the table has it after the sighting, or before the loss; Found iff it was not there, Lost iff it is gone |
| Announcing.ParseTxt | internal/discovery/announce.go:78-109 | the field loop: later fields win, any bad number or invalid result is malformed |
| Announcing.TxtRoundTrip | internal/discovery/announce.go:66-109 | what a device announces is what its peers read, the name cut to 63 bytes |
| Announcing.UnknownFieldsIgnored | internal/discovery/announce.go:74-109 | a field with an unknown key, or none, changes nothing wherever it stands |
| Announcing.EncodeDatagram | internal/discovery/announce.go:152-164 | the datagram's layout, long fields cut to 255 bytes |
| Announcing.SplitFields | internal/discovery/announce.go:192-203 | the field loop on any bytes, in bounds |
| Announcing.DecodeDatagram | internal/discovery/announce.go:180-222 | what each byte string decodes to, or which error |
| Announcing.SplitInvertsJoined | internal/discovery/announce.go:152-203 | any short fields are recovered from their encoding |
| Announcing.JoinedInvertsSplit | internal/discovery/announce.go:192-203 | every body that splits is the encoding of its fields |
| Announcing.AnnounceRoundTrip | internal/discovery/announce.go:140-222 | decoding the datagram of any valid announce gives it back with its name cut |
| Announcing.QueryRoundTrip | internal/discovery/announce.go:148-222 | a query names its asker |
| Announcing.AcceptedAnnouncesReannounce | internal/discovery/announce.go:66-222 | whatever is accepted is valid and survives being announced again unchanged |
| Announcing.NumberMeaning | internal/discovery/announce.go:88-103 | which strings are a version or a port, and the number they spell |
| Announcing.TxtLayout | internal/discovery/announce.go:66-73 | the four fields of a record, in order |
| Announcing.TxtVerdict | internal/discovery/announce.go:78-109 | a record is refused iff a number in it does not read as one or its last values make no announce; otherwise it is what its last values say |
| Announcing.DatagramLayout | internal/discovery/announce.go:152-164 | magic, version, type, and where each field lies behind its length |
| Announcing.SplitMeaning | internal/discovery/announce.go:192-203 | a body splits into given fields iff it is their encoding, none of them cut |
| Announcing.DatagramVerdict | internal/discovery/announce.go:180-222 | what any datagram is taken for, or which error it gives |
| Utf8.TruncateUtf8 | internal/discovery/announce.go:226-234 | the loop backs up to the last byte that may start a character |
| Utf8.CutsAtStarts | internal/discovery/announce.go:224-234 | a cut of valid text (RFC 3629) is valid iff it falls in front of a starting byte |
| Utf8.TruncatedIsLongest | internal/discovery/announce.go:224-234 | at most n bytes, idempotent, and for valid text the longest valid prefix that fits |
| Utf8.ValidIff | internal/discovery/announce.go:224-234 | valid text is exactly the RFC 3629 encodings of some characters, one after the other |
| AddrRank.Collect | internal/discovery/announce.go:245-262 | the usable addresses at their first occurrence |
| AddrRank.CanonicalAlike | internal/discovery/announce.go:250-305 | the two forms of an IPv4 address are dropped, deduplicated and scored alike |
| AddrRank.V4Scores | internal/discovery/announce.go:250-321 | which IPv4 addresses are usable and what each range scores, in either form |
| AddrRank.V6Scores | internal/discovery/announce.go:250-305 | the same for IPv6 |
| AddrRank.SiftDown | internal/discovery/announce.go:267-269 | the inner loop inserts one element behind all that do not score worse |
| AddrRank.SortByScore | internal/discovery/announce.go:264-271 | the in-place insertion sort computes the stable sort |
| AddrRank.StableSorts | internal/discovery/announce.go:264-271 | the result is ordered by score and a permutation |
| AddrRank.StableKeepsClasses | internal/discovery/announce.go:264-271 | equal scores keep the order heard |
| AddrRank.StableUnique | internal/discovery/announce.go:264-271 | order by score and order among equals leave one possible answer |
| AddrRank.RankAddrs | internal/discovery/announce.go:245-278 | returns the ranked hosts, in order, with the announced port |
| AddrRank.RankingMeaning | internal/discovery/announce.go:245-278 | exactly the usable inputs, no host twice, best score first, ties in the order heard |

## Left out

- QUIC, TLS, congestion control, sockets, subprocess encoders, memory locking and file permissions: foreign code, present only as steps, parameters or results.
- Ed25519, SHA-256, Argon2, sealed key containers, protobuf and JSON: abstract. In particular a stored record is read back exactly as written; JSON replaces bytes that are not UTF-8 in a name or platform string.
- Zero `time.Time` values and the saturation of `Time.Sub`: times are integers, and "none" is a constructor of its own. Wall-clock milliseconds fit 64 bits.
- Timers that only wipe a lapsed key early, expiry warnings and the extension of grants by them: the reaper does what any expiring call does.
- Unlock.FileIdentity.SignOwned: the nonce is a parameter, as randomness is outside the model; the signature itself is represented by the input and the key it was made with.
- Session.Sess.Dispatch: waiting for room in a full capability queue, which blocks the control loop, and the audit events are not modelled.
- Hello beyond negotiation: version and role checks are straight-line comparisons that would only add easy members.
- Deadline.NoLostTimeout: stated for the connection in `internal/path` only; the relay client has a similar scheme without the check at the top of its loop.
- Routes.Conn.Class: the textual class of a validated address is left abstract.
- Routes.Conn.HandleUdp: packets dropped because nobody reads them count as reported.
- Routes.Conn.Sweep: the method runs with nothing between its critical sections; `Routes.SplitSweepIsRightIff` treats the pass with anything in between.
- Punch.PunchIsTwoWay: assumes that only the two endpoints emit probes with the token and that no device punches towards itself; spraying, pacing and the choice of candidates are steps that may happen at any time, as is the removal of an attempt that has returned.
- Stun.ParseStun: zone ids of IPv6 link-local addresses, and IPv4-mapped endpoints, which the program unmaps beforehand.
- AnnexB.SplitFrames: frames the program tries to send; a slow consumer's dropped frames are not modelled.
- Pairing.StoredOnlyOnMutualAcceptance: the checks on a scanned offer are one boolean, and a session carries one exchange; the words of error messages and what a session guard holds are left out.
- Ipc.RepliesReachTheirCall: the id counter does not wrap at 2^64; the bodies of replies are opaque apart from their first field.
- Ipc.FailureUnblocks: a write to the connection returns, as it does once the connection is closed.
- TrustStore.FileTrustStore.Put: the file write happens whole or not at all, as the atomic rename provides; copying byte slices on the way in and out has no counterpart, since sequences are values.
- Discovery.Discoverer.Observe: candidates are values in the map, so the sharing of a candidate by reference is not captured; the transport label is kept but is not part of what events rebuild, because a change of label alone emits no event.
- Discovery.EventsRebuildTable: takes change and emission as one step; a full event queue, which drops events, is not modelled.
- AddrRank.RankAddrs: an address is its octets in canonical form, and formatting host and port as text is left out.
- `internal/daemon`, `internal/rendezvous`, the relay and rendezvous servers, key files, commands, mobile bindings and user interfaces: glue, presentation, or further simple maps and fixed layouts.
