# AppPilotKit: models and proofs

Models, in Dafny, of the parts of AppPilotKit where protocol, state and
arithmetic meet, with the properties its design depends on proved for all
inputs, all runs and all interleavings.

What is modelled:

- **The encrypted session and lease** between an app process (the Target) and
  the host (the Broker): 16-bit outer framing, record fragmentation and
  reassembly, CBOR payloads, the half-duplex session, the heartbeat lease, and
  the quotas of 2^32 records and 2^40 bytes that always leave room for one last
  Close. `Framing`, `Cbor`, `Payloads`, `Records`, `Noise`, `Session`,
  `SessionObjects`, `SessionRuns`, `Lanes`, `Calls`, `TwoParty` (what can never
  go wrong between two honest sides), `Conversations` (what they can get done),
  `Farewells` (how they part), `BytePair` (all of it over byte streams),
  `SessionAnswers` (what every call answers to anybody), `Lease`, `LeasePair`,
  `LeaseRuns`, `LeaseConversations`, `LeaseAnswers`, `Mismatches` (messages meant for
  somebody else) and `WireBytes` (the bytes themselves). Noise is
  an ideal channel: a ciphertext is its key, direction, nonce and plaintext,
  sixteen bytes longer than the plaintext, and opens exactly at the next nonce of
  the same key and direction.
- **The Target supervisor**, which multiplexes one lease and many sessions over
  events and timers: `Supervisor`, `SupervisorTimers`, `SupervisorRuns`,
  `SupervisorService` (what it refuses and what it gets done), `SupervisorReasons`
  and `SupervisorEnds` (what its ends say), `SupervisorDeadlines`,
  `SupervisorGaps` (what its outcomes do not tell), `SupervisorExhaustion` (runs
  that use up its tokens), `SupervisorObject`, and `SupervisedSessions` and
  `SilentSessions`, where the session cores answer its events.
- **OwnedOp**, the lock-and-atomics hand-over of one resource from a producer
  to a consumer or a reaper, each atomic operation and lock section one step of
  any thread: `OwnedOp`, and `OwnedOutcomes` (what every call comes back with).
- **The target action coordinator** with concurrent invocations that suspend:
  `Coordinator`, and `CoordinatorOutcomes` (which answers lead to which end).
- **UI snapshots**: the structure check, the view traversal that must satisfy
  it, and the bounded store: `Graph`, `ViewCapture`, `SnapshotStore`.
- **Catalog pagination**: `Pagination`, and `Listings` (what a page tells).
- **The canonical app tree** of an iOS bundle: `AppTree`, `BundleIdentity`,
  `BundleAcceptance` (which bundles are accepted), `BundleStream` (one, byte by byte).
- **The OpenStep property-list parser**: `OpenStep` (the grammar), `OpenStepParser`
  (the cursor machine), `OpenStepText` (what is printed is read),
  `OpenStepReading` (what is read was printed), `OpenStepSample`.
- **The binary Android manifest**: `Manifest`, `ManifestStrings`, `ManifestPools`,
  `ManifestText` (attributes and elements as bytes), `ManifestPieces` (whole
  manifests as bytes), `ManifestTree`, `ManifestMeaning` (what is accepted and what
  it means), `ManifestParser`, `ManifestSample`.

Objects that the program updates in place are classes here. Each of their
methods is proved to leave exactly the state, and return exactly the result, of
a transition function, and the run theorems are about those functions.

## Where the code and its intent part

- A session that ends by the commit of its last Close (`TerminalPending`)
  reports NotHandedOff even after an application was handed out, and stays
  behind to end once more. The code is modelled as it is;
  `SupervisorRuns.SessionEndTellsHandoff` says for every run when the report is
  right and `SupervisorRuns.OneEndDeniesHandoff` is a run in which it is not.
  It is also wrong the other way for an application read at the last token:
  `SupervisorExhaustion.CutOffIsReported`.
  The Close itself, which the peer reads, does not deny it:
  `SupervisedSessions.LastCloseNeverDenies`.
- `session_bytes` drains the frame decoder before it looks at the session's
  phase, so WrongPhase does not leave the decoder as it was: completed frames
  are lost exactly as `SupervisorGaps.RefusedCallLosesFrames` says, and
  `SupervisorGaps.EnvelopeIsLostUnannounced` is a reachable run.
- The same call starts a frame timer for the leftover and then returns an error,
  so a timer that can end the session runs without anybody having been told its
  deadline. `SupervisorGaps.LiveTimerIsUnannouncedExactly` says which timers
  those are, and `SilentSessions.UnannouncedByCores` says it by the session cores.
- A tick that fires after the last token has been given out leaves its slot
  naming a dead timer: `SupervisorGaps.TickSlotDiesExactly`, and the run
  `SupervisorExhaustion.TickSlotDies`.
- The end of the lease tells whether a session that is still known has had an
  application. One that has ended before is forgotten, so a lease may end with
  NotHandedOff although an application was handed out:
  `SupervisorEnds.LeaseEndTellsHandoff`, `SupervisorEnds.EndedSessionIsForgotten`.
- `OwnedOp::wait_until` never returns when it finds the result already taken or
  abandoned, and past its deadline it does so holding the lock:
  `OwnedOp.SoleWaitNeedsHope`, `OwnedOp.StarvesExactly`, and the run
  `OwnedOp.AbandonThenWaitStarves`.
- The coordinator passes on an outcomeUnknown that a validation or a policy
  resolver throws, although no handler ran: `Coordinator.UnknownMeansRan`,
  `Coordinator.ResolverCanClaimUnknown`.
- A listing page that is far too long fails the call where a slightly too long
  one shrinks, and a failed page has already used up its cursor:
  `Pagination.ListingSucceedsExactly`, `Pagination.FarTooLongFails`,
  `Pagination.FailedPageLosesCursor`, `Pagination.LostCursorCutsChain`. A page
  may be empty while items remain: `Pagination.EmptyPageWhen`,
  `Pagination.EmptyPageWithItemsLeft`.

## Model

| member | source | states |
|---|---|---|
| `TwoParty.PrefixAndAlternation` | transport/crypto-core/src/lib.rs:1464-1673 | in every interleaving of an honest Target and Broker over ordered channels, what each side delivered is a prefix of what the other sent, requests and responses strictly alternate, and two open sides never both hold the turn |
| `TwoParty.HonestApplicationAccepted` | transport/crypto-core/src/lib.rs:1816-1878 | in every reachable joint state an open side accepts the honest application frame at the front of its channel: no Oversize, RecordLimit or SequenceViolation, and a finished message is exactly the next one the peer sent |
| `TwoParty.CloseTellsHandoff` | transport/crypto-core/src/lib.rs:2003-2030 | once the Target has delivered an application, no Close either role has put on the wire says NotHandedOff |
| `TwoParty.BothTalkingAgree` | transport/crypto-core/src/lib.rs:1737-1774 | two sides that both finished the handshake hold the same binding and the same transcript, whatever bindings and secrets they were configured with |
| `TwoParty.ReachableInv` | transport/crypto-core/src/lib.rs:1464-2045 | the joint invariant (queues are exactly what is in flight, counts differ by it, flags agree) survives every run of public calls by either side |
| `BytePair.BytesKeepTheSession` | transport/crypto-core/src/lib.rs:328-2045 | the two sides over byte streams, envelopes cut and delivered anyhow: in every run no decoder fails, deliveries are prefixes of what was sent, turns alternate, and no Close denies a delivery |
| `BytePair.BytesAreAccepted` | transport/crypto-core/src/lib.rs:1850-1878 | in every such run an open side accepts the application frame its decoder completed first, and a message it finishes is exactly the next one the peer sent |
| `BytePair.ArrivalHolds` | transport/crypto-core/src/lib.rs:328-357 | however many bytes arrive next, the decoder completes exactly the next envelopes that were sent and keeps the rest |
| `BytePair.BytesDeliverAll` | transport/crypto-core/src/lib.rs:328-1878 | after any run of bytes, an open side that has sent its Finished gets, from what is still on its way, everything the other side has sent |
| `BytePair.AnyConversationOverBytes` | transport/crypto-core/src/lib.rs:328-2045 | and any conversation within caps and quotas comes about over bytes, if the wire carries its frames |
| `Conversations.SendSucceedsExactly` | transport/crypto-core/src/lib.rs:1816-1849 | a send succeeds if and only if both Finished are exchanged, it is the turn of that side, the session is opened once and first, and the payload is within the cap and, with a Close after it, the quotas |
| `Conversations.ReadingDeliversAll` | transport/crypto-core/src/lib.rs:1850-1878 | in every reachable world of two honest sides, an open side that has sent its Finished gets by reading on everything the other has sent, every read accepted, and then its channel is empty unless a Close follows |
| `Conversations.SentIsDelivered` | transport/crypto-core/src/lib.rs:1816-1878 | in every reachable world, what a side may send is sent, and the other side, if open, gets it by reading on, and with it the turn |
| `Conversations.AnyConversationComesAbout` | transport/crypto-core/src/lib.rs:1464-1878 | two sides with one binding and secret can hold any conversation: some run of their calls, from the first handshake message on, delivers any list of requests and responses within the caps and together within the quotas, and leaves both open |
| `Conversations.SomethingIsHeard` | transport/crypto-core/src/lib.rs:1464-1878 | such a world exists: a reachable run in which a request and its response have been delivered |
| `Farewells.CloseIsReported` | transport/crypto-core/src/lib.rs:1850-1905 | in every reachable world, a side that has exchanged both Finished and reads a Close at the front of its channel, where it awaits an application or a Close, reports exactly the reason and the hand-off the other side wrote, and after a delivery that one does not deny the hand-off |
| `Farewells.CloseComesThrough` | transport/crypto-core/src/lib.rs:1850-1905 | and a Close that was written comes through: reading on, everything sent before it is delivered and the Close is what is left |
| `Farewells.EndIsReported` | transport/crypto-core/src/lib.rs:1879-1889 | in every reachable world, the end of the stream of an open side is Malformed if and only if part of a message is in, which then is a proper beginning of the next message the other side sent, and PeerClosed else |
| `SessionAnswers.GreetingAnswers` | transport/crypto-core/src/lib.rs:1502-1505 | whatever the state and the frame, a handshake message of the peer is taken if and only if it is the one awaited, of this handshake and empty; else the call fails with SequenceViolation or AuthenticationFailed as told |
| `SessionAnswers.BindingAnswers` | transport/crypto-core/src/lib.rs:2031-2045 | the binding check changes nothing exactly when both numbers agree, and else fails with BindingMismatch and closes |
| `SessionAnswers.NewAnswers` | transport/crypto-core/src/lib.rs:1464-1500 | a core is made exactly for a generation and an epoch from 1 to 2^53 - 1 |
| `SessionAnswers.FinishedAnswers` | transport/crypto-core/src/lib.rs:1783-1796 | a Finished is written exactly once, after the handshake and in the order of the roles, as long as the quotas allow it beside a Close; and each refusal has its reason |
| `SessionAnswers.PeerFinishedAnswers` | transport/crypto-core/src/lib.rs:1797-1815 | whatever the state and the frame, a Finished is taken if and only if the frame opens, counts within the quotas and holds byte for byte the Finished of the other role for this binding and transcript |
| `SessionAnswers.MessageAnswers` | transport/crypto-core/src/lib.rs:1816-1849 | whatever the state, a message is sent if and only if the side may speak, the message is within the cap of its kind and the quotas allow it beside a Close; and each refusal has its reason |
| `SessionAnswers.PeerMessageAnswers` | transport/crypto-core/src/lib.rs:1850-1878 | whatever the state and the frame, an application record is taken if and only if it opens, it is the turn of the peer, and it is the next piece of a message within cap and quotas; the last piece delivers the whole message, and each refusal has its reason |
| `SessionAnswers.PieceAnswers` | transport/crypto-core/src/lib.rs:535-605 | a piece of a message is taken if and only if nothing has failed, the quotas last, the message is not too long, and the piece is in order and in size; the reason it is refused for is the first of these that does not hold |
| `SessionAnswers.PeerCloseAnswers` | transport/crypto-core/src/lib.rs:1850-1905 | whatever the state and the frame, a Close is reported, with what it says, exactly if the frame opens and holds that Close |
| `SessionAnswers.OnlyCloseIsTaken` | transport/crypto-core/src/lib.rs:1890-1905 | and where a Close is awaited nothing else is taken |
| `SessionAnswers.OnlyNextOpens` | transport/crypto-core/src/lib.rs:1923-1937 | after any run of calls with frames from anybody, the only frame that opens is the one the other side sealed next for this transcript: none twice, none out of order, none reflected |
| `SessionAnswers.CloseAnswers` | transport/crypto-core/src/lib.rs:2003-2030 | a Close is written exactly if one more record of its length is below the quotas and the core still has its channel |
| `SessionAnswers.FailuresClose` | transport/crypto-core/src/lib.rs:1674-1687 | every call that fails closes the core |
| `SessionRuns.CallKeepsSound` | transport/crypto-core/src/lib.rs:1674-2045 | every public call on either role, with any arguments and any frame, keeps the quota room, the nonce counts and the closed state consistent |
| `SessionRuns.RunKeepsSound` | transport/crypto-core/src/lib.rs:1674-2045 | so does every run of calls |
| `SessionRuns.CloseAlwaysFits` | transport/crypto-core/src/lib.rs:1961-1990 | in every reachable open state one more record and one Close stay below 2^32 records and 2^40 bytes, and writing a Close succeeds with the given reason and at least the recorded hand-off |
| `SessionRuns.LimitErrorsClose` | transport/crypto-core/src/lib.rs:1938-1960 | every call that ends in RecordLimit on an open core carries one Close frame and closes the core |
| `SessionRuns.MessageIsAllOrNothing` | transport/crypto-core/src/lib.rs:1816-1849 | a sent message is on the wire with every fragment counted, or nothing of it is and the core is closed with at most one Close frame |
| `Calls.ClosedCall` | transport/crypto-core/src/lib.rs:1674-1687 | on a closed core every call is without effect: no frame, no delivery, no change of hand-off, and a send fails |
| `Calls.MessageCall` | transport/crypto-core/src/lib.rs:1816-1849 | a send that succeeds puts exactly the fragments of the payload, within the cap of its role and at its turn, on the wire; one that fails sends nothing, or one Close that closes the core |
| `Calls.CoreReadsFinished` | transport/crypto-core/src/lib.rs:1797-1815 | the honest Finished in flight is accepted exactly once; any other honest frame in its place is refused without a reply |
| `SessionObjects.SessionCore.WriteHandshake` | transport/crypto-core/src/lib.rs:1737-1744 | refines the pure step of the same name: result and whole new state, over every old state and argument |
| `SessionObjects.SessionCore.ReadHandshake` | transport/crypto-core/src/lib.rs:1745-1756 | refines the pure step of the same name: result and whole new state, over every old state and argument |
| `SessionObjects.SessionCore.FinishHandshake` | transport/crypto-core/src/lib.rs:1757-1774 | refines the pure step of the same name: result and whole new state, over every old state and argument |
| `SessionObjects.SessionCore.WriteFinished` | transport/crypto-core/src/lib.rs:1783-1796 | refines the pure step of the same name: result and whole new state, over every old state and argument |
| `SessionObjects.SessionCore.ReadFinished` | transport/crypto-core/src/lib.rs:1797-1815 | refines the pure step of the same name: result and whole new state, over every old state and argument |
| `SessionObjects.SessionCore.WriteApplication` | transport/crypto-core/src/lib.rs:1816-1849 | refines the pure step of the same name: result and whole new state, over every old state and argument |
| `SessionObjects.SessionCore.ReadApplication` | transport/crypto-core/src/lib.rs:1850-1878 | refines the pure step of the same name: result and whole new state, over every old state and argument |
| `SessionObjects.SessionCore.Eof` | transport/crypto-core/src/lib.rs:1879-1889 | refines the pure step of the same name: result and whole new state, over every old state and argument |
| `SessionObjects.SessionCore.ReadClose` | transport/crypto-core/src/lib.rs:1890-1905 | refines the pure step of the same name: result and whole new state, over every old state and argument |
| `SessionObjects.SessionCore.WriteClose` | transport/crypto-core/src/lib.rs:2003-2030 | refines the pure step of the same name: result and whole new state, over every old state and argument |
| `SessionObjects.SessionCore.EncryptCounted` | transport/crypto-core/src/lib.rs:1912-1922 | refines the record-sealing function the run theorems are about: same result, same new state |
| `SessionObjects.SessionCore.DecryptCounted` | transport/crypto-core/src/lib.rs:1923-1937 | refines the opening function: the nonce advances on success only, counts grow by the plaintext, a reached quota closes |
| `SessionObjects.SessionCore.RecordLimitError` | transport/crypto-core/src/lib.rs:1938-1960 | refines the last-Close function: the frame is there exactly when one more Close fits, and the core is closed either way |
| `SessionObjects.SessionCore.SendUsageAfter` | transport/crypto-core/src/lib.rs:1961-1990 | answers with the new counts exactly when the records and bytes, and a reserved Close where asked, stay below both quotas |
| `SessionObjects.SessionCore.ValidateBinding` | transport/crypto-core/src/lib.rs:2031-2045 | refines the pure step of the same name: result and whole new state, over every old state and argument |
| `SessionObjects.TargetSession.ReadM2` | transport/crypto-core/src/lib.rs:1502-1505 | refines the role step the joint runs are made of: result and whole new state, a failure leaving the core closed |
| `SessionObjects.TargetSession.ReadApplication` | transport/crypto-core/src/lib.rs:1518-1530 | refines the role step the joint runs are made of: result and whole new state, a failure leaving the core closed |
| `SessionObjects.TargetSession.WriteApplicationResponse` | transport/crypto-core/src/lib.rs:1534-1542 | refines the role step the joint runs are made of: result and whole new state, a failure leaving the core closed |
| `SessionObjects.TargetSession.WriteClose` | transport/crypto-core/src/lib.rs:1543-1550 | refines the role step the joint runs are made of: result and whole new state, a failure leaving the core closed |
| `SessionObjects.BrokerSession.ReadM1WriteM2` | transport/crypto-core/src/lib.rs:1598-1606 | refines the role step the joint runs are made of: result and whole new state, a failure leaving the core closed |
| `SessionObjects.BrokerSession.WriteSessionOpen` | transport/crypto-core/src/lib.rs:1619-1633 | refines the role step the joint runs are made of: result and whole new state, a failure leaving the core closed |
| `SessionObjects.BrokerSession.WriteApplicationRequest` | transport/crypto-core/src/lib.rs:1634-1645 | refines the role step the joint runs are made of: result and whole new state, a failure leaving the core closed |
| `SessionObjects.BrokerSession.ReadApplicationResponse` | transport/crypto-core/src/lib.rs:1646-1649 | refines the role step the joint runs are made of: result and whole new state, a failure leaving the core closed |
| `SessionObjects.BrokerSession.WriteClose` | transport/crypto-core/src/lib.rs:1653-1660 | refines the role step the joint runs are made of: result and whole new state, a failure leaving the core closed |
| `Framing.EnvelopesSurviveCutting` | transport/crypto-core/src/lib.rs:318-390 | whatever way the bytes of a list of envelopes are cut into pushes, exactly those envelopes come out in order and nothing is owed |
| `Framing.CuttingIsInvisible` | transport/crypto-core/src/lib.rs:328-357 | from any resting state, pushing chunks gives the frames and the leftover of the concatenated stream, and fails exactly when the stream announces a zero length |
| `Framing.ScanConserves` | transport/crypto-core/src/lib.rs:328-357 | recognised frames and leftover concatenate to the input |
| `Framing.ScanIsMaximal` | transport/crypto-core/src/lib.rs:328-357 | every recognised frame is one envelope and the leftover holds no complete one |
| `Framing.ScanAppend` | transport/crypto-core/src/lib.rs:328-357 | later input never changes what was recognised before |
| `Framing.OuterIsExact` | transport/crypto-core/src/lib.rs:396-410 | a byte string opens to a payload exactly when it is the encoding of that payload |
| `Framing.OuterFrameDecoder.Push` | transport/crypto-core/src/lib.rs:328-357 | the in-place decoder yields the frames of its pending bytes followed by the input, keeps the leftover, and fails for good on a zero length |
| `Framing.OuterFrameDecoder.Timeout` | transport/crypto-core/src/lib.rs:361-372 | fails with Timeout exactly when a frame is owed, for good |
| `Framing.OuterFrameDecoder.Eof` | transport/crypto-core/src/lib.rs:373-384 | fails with Malformed exactly when a frame is owed, for good |
| `Records.RecordExact` | transport/crypto-core/src/lib.rs:438-472 | decoding accepts a byte string as a record exactly when it is the encoding of that record |
| `Records.PayloadSurvivesTheWire` | transport/crypto-core/src/lib.rs:2119-2142 | for every payload within cap and quotas and every cutting of its outer frames, the receiver gets the same frames, and reassembly answers nothing until the last fragment and then exactly the payload |
| `Records.FramesOpen` | transport/crypto-core/src/lib.rs:2086-2098 | every fragment fits the 65535-byte envelope once sealed, and opening gives the records back in order |
| `Records.FragmentsReassemble` | transport/crypto-core/src/lib.rs:535-605 | from any point of a message its remaining fragments complete it, and count exactly their records and bytes |
| `Records.ReassemblyConserves` | transport/crypto-core/src/lib.rs:535-605 | for any records whatever, delivered messages and bytes still pending are the record data in arrival order |
| `Records.RecordReassembler.Accept` | transport/crypto-core/src/lib.rs:535-605 | refines the acceptance function, including which failures are final and that they drop the partial message |
| `Records.RecordReassembler.Eof` | transport/crypto-core/src/lib.rs:606-617 | an end inside a message is Malformed and final; one between messages changes nothing |
| `Records.RecordReassembler.SetCap` | transport/crypto-core/src/lib.rs:618-625 | the cap changes only between messages, and never to zero |
| `Payloads.CloseExact` | transport/crypto-core/src/lib.rs:690-704 | the Close parser accepts exactly the canonical encoding of what it returns |
| `Payloads.FinishedExact` | transport/crypto-core/src/lib.rs:2143-2218 | the Finished parser accepts, under a binding and transcript hash, exactly the encoding for role 0 or 1 |
| `Payloads.HeartbeatExact` | transport/crypto-core/src/lib.rs:2219-2269 | the heartbeat parser returns a counter exactly for the bytes the encoder makes of it, for the same role and binding |
| `Payloads.AckExact` | transport/crypto-core/src/lib.rs:1365-1432 | the acknowledgement parser accepts exactly the encoding of an acknowledgement that matches the binding and transcript |
| `Payloads.M2Exact` | transport/crypto-core/src/lib.rs:1317-1364 | the M2 parser returns a secret exactly for the encoding of that secret under the same binding |
| `Payloads.DescriptorExact` | transport/crypto-core/src/target_transport.rs:1330-1524 | the launch descriptor parser accepts exactly the canonical encodings of valid descriptors up to 8192 bytes |
| `WireBytes.CloseBytes` | transport/crypto-core/src/lib.rs:106-170 | a Close is the bytes A3 00 01 01, the number of its reason, 02 and its hand-off, for every reason by its number |
| `WireBytes.FinishedBytes` | transport/crypto-core/src/lib.rs:2143-2218 | the bytes of a Finished, item by item |
| `WireBytes.HeartbeatBytes` | transport/crypto-core/src/lib.rs:2219-2269 | the bytes of a heartbeat, item by item |
| `WireBytes.AckBytes` | transport/crypto-core/src/lib.rs:1365-1432 | the bytes of an acknowledgement, item by item |
| `WireBytes.M2Bytes` | transport/crypto-core/src/lib.rs:1317-1364 | the bytes of a second bootstrap message, item by item |
| `WireBytes.DescriptorBytes` | transport/crypto-core/src/target_transport.rs:1330-1524 | the bytes of a launch descriptor, item by item, for a socket name and for a port of 127.0.0.1 |
| `WireBytes.NumberBytes` | transport/crypto-core/src/lib.rs:86-94 | a number in a payload is one byte below 24, and else 18, 19, 1A or 1B and its bytes, the most significant first, as few as it needs |
| `WireBytes.RecordBytes` | transport/crypto-core/src/lib.rs:438-472 | the twelve bytes of a record header: kind, flags, two zeros, length and place, and then the data |
| `WireBytes.EnvelopeBytes` | transport/crypto-core/src/lib.rs:396-402 | an envelope is its length in two bytes and its frame |
| `Mismatches.FinishedElsewhere` | transport/crypto-core/src/lib.rs:2143-2218 | a Finished of another lease, generation, epoch or handshake is a BindingMismatch, not garbage |
| `Mismatches.HeartbeatElsewhere` | transport/crypto-core/src/lib.rs:2219-2269 | so is a heartbeat of another lease, generation or epoch |
| `Mismatches.HeartbeatReversed` | transport/crypto-core/src/lib.rs:2219-2269 | a heartbeat of the other direction is Malformed |
| `Mismatches.AckElsewhere` | transport/crypto-core/src/lib.rs:1365-1432 | an acknowledgement that is not the one awaited is a BindingMismatch |
| `Mismatches.M2Elsewhere` | transport/crypto-core/src/lib.rs:1317-1364 | a second bootstrap message for another binding is a BindingMismatch |
| `LeaseRuns.LockStep` | transport/crypto-core/src/lib.rs:1070-1147 | between honest peers at most one heartbeat is outstanding, taken counters strictly increase on both sides, and the Broker never leads the Target |
| `LeaseRuns.HonestBeatsAccepted` | transport/crypto-core/src/lib.rs:1070-1134 | an open side never refuses the heartbeat it is owed |
| `LeaseRuns.AckHandsOver` | transport/crypto-core/src/lib.rs:898-1035 | the acknowledgement one bootstrap end writes is accepted by the other, and both become the two ends of one lease |
| `LeasePair.AckStartsFresh` | transport/crypto-core/src/lib.rs:898-1035 | whatever acknowledgement a bootstrap end writes, and whatever frame the other accepts as one, the lease it is left with has the full quotas and no heartbeat pending |
| `LeasePair.LeaseCallKeeps` | transport/crypto-core/src/lib.rs:1149-1297 | every call with any arguments and frame keeps the lease counts, nonces and quota room |
| `LeasePair.LeaseRunKeeps` | transport/crypto-core/src/lib.rs:1149-1297 | so does every run of calls |
| `LeasePair.LeaseCloseAlwaysFits` | transport/crypto-core/src/lib.rs:1235-1261 | from a fresh lease, every reachable open state can still send a Close with exactly the given reason and hand-off |
| `LeasePair.LeaseLimitCloses` | transport/crypto-core/src/lib.rs:1276-1297 | a limit error on an open lease carries exactly one Close frame |
| `LeaseConversations.AnyHeartbeatsComeThrough` | transport/crypto-core/src/lib.rs:1070-1147 | from the acknowledgement on, any rising counters within the quotas are asked, taken, answered and returned in some run, and both ends stay open |
| `LeaseConversations.CloseIsReported` | transport/crypto-core/src/lib.rs:1216-1234 | in every reachable world, what comes to an open end after the heartbeats it is owed is the Close the other end wrote, and it reports exactly that |
| `LeaseAnswers.AskAnswers` | transport/crypto-core/src/lib.rs:1112-1122 | whatever the state, a heartbeat is asked exactly if none is pending, its counter is larger than the last and the quotas allow it beside a Close; and each refusal has its reason |
| `LeaseAnswers.ReplyAnswers` | transport/crypto-core/src/lib.rs:1085-1096 | and answered exactly if it is the pending one |
| `LeaseAnswers.RequestAnswers` | transport/crypto-core/src/lib.rs:1071-1084 | whatever the state and the frame, the Target takes a heartbeat if and only if none is pending and the frame opens and holds byte for byte a request of this lease with a larger counter; a Close in its place is reported with what it says |
| `LeaseAnswers.AnswerAnswers` | transport/crypto-core/src/lib.rs:1123-1134 | whatever the state and the frame, the Broker takes an answer if and only if the frame opens and holds byte for byte the answer for the pending counter |
| `LeaseAnswers.ByeTaken` | transport/crypto-core/src/lib.rs:1225-1234 | where a Close is awaited exactly a Close is taken, with what it says |
| `LeaseAnswers.LeaseEnds` | transport/crypto-core/src/lib.rs:1149-1297 | a lease is closed by a failure and by a Close in either direction, and by no other call |
| `LeaseAnswers.AckAnswers` | transport/crypto-core/src/lib.rs:898-1035 | the Broker takes an acknowledgement if and only if the frame opens and holds byte for byte one it is waiting for |
| `Lease.LeaseCore.WriteRecord` | transport/crypto-core/src/lib.rs:1235-1261 | refines the lease step of the same purpose: result and whole new state |
| `Lease.LeaseCore.DecryptCounted` | transport/crypto-core/src/lib.rs:1262-1275 | refines the lease step of the same purpose: result and whole new state |
| `Lease.LeaseCore.LimitError` | transport/crypto-core/src/lib.rs:1276-1297 | refines the lease step of the same purpose: result and whole new state |
| `Lease.LeaseCore.WriteClose` | transport/crypto-core/src/lib.rs:1216-1224 | refines the lease step of the same purpose: result and whole new state |
| `Lease.LeaseCore.ReadClose` | transport/crypto-core/src/lib.rs:1225-1234 | refines the lease step of the same purpose: result and whole new state |
| `Lease.TargetLease.ReadHeartbeatRequest` | transport/crypto-core/src/lib.rs:1071-1084 | refines the step that takes one pending, larger counter or closes the lease |
| `Lease.TargetLease.WriteHeartbeatReply` | transport/crypto-core/src/lib.rs:1085-1096 | refines the step that answers exactly the pending counter or closes the lease |
| `Lease.BrokerLease.WriteHeartbeatRequest` | transport/crypto-core/src/lib.rs:1112-1122 | refines the step that asks with a larger counter while none is pending |
| `Lease.BrokerLease.ReadHeartbeatReply` | transport/crypto-core/src/lib.rs:1123-1134 | refines the step that accepts exactly the pending counter |
| `SupervisorTimers.DriveKeeps` | transport/crypto-core/src/target_transport.rs:230-277 | every event, whatever the cores answer, keeps timers, slots and tokens in step |
| `SupervisorTimers.DrivesKeep` | transport/crypto-core/src/target_transport.rs:230-277 | so does every run of events |
| `SupervisorTimers.EachTimerOneSlot` | transport/crypto-core/src/target_transport.rs:1250-1311 | every live timer sits in exactly one slot below the next token, and every slot names a live timer; the tick slot alone may not once tokens have run out, by the exact condition of SupervisorGaps.TickSlotDiesExactly |
| `SupervisorTimers.NoFrameIsOwed` | transport/crypto-core/src/target_transport.rs:1250-1268 | input that completes no frame leaves the decoder incomplete, so its frame timer is right to run |
| `SupervisorRuns.TerminalTokensAreExact` | transport/crypto-core/src/target_transport.rs:312-331 | firing a listed token ends a session or the lease; firing any other token, live or not, ends nothing |
| `SupervisorRuns.SessionsAreIsolated` | transport/crypto-core/src/target_transport.rs:706-874 | an event or timer of one session leaves the lease, every other session and every other timer as they were |
| `SupervisorRuns.EndIsReported` | transport/crypto-core/src/target_transport.rs:1060-1098 | the phase becomes terminal exactly when a lease end is reported, with the reported reason and hand-off and no live timer |
| `SupervisorRuns.EndIsForever` | transport/crypto-core/src/target_transport.rs:230-250 | after a lease end every later drive repeats it unchanged and no timer is live |
| `SupervisorRuns.SessionEndTellsHandoff` | transport/crypto-core/src/target_transport.rs:1031-1058 | over every run whatever, a session end reports a possible hand-off exactly when one of its applications was handed out, except in two cases told exactly: at the commit of a last Close after an application it never does, and after an application cut off at the last token it does; the session is removed except at that commit |
| `SupervisorRuns.NothingCutEarly` | transport/crypto-core/src/target_transport.rs:706-874 | no application is cut off while a token is left |
| `SupervisorRuns.CountsExactly` | transport/crypto-core/src/target_transport.rs:706-874 | an event moves the application count of its session exactly by what it hands out or cuts off |
| `SupervisorRuns.OneEndDeniesHandoff` | transport/crypto-core/src/target_transport.rs:437-500 | a concrete reachable run in which that exception happens: the end says NotHandedOff after a delivered application and the session ends a second time when its timer fires |
| `SupervisorRuns.SessionEndIsASession` | transport/crypto-core/src/target_transport.rs:1031-1058 | a session end always names a session that was accepted and still known |
| `SupervisorRuns.TokensGrow` | transport/crypto-core/src/target_transport.rs:1231-1249 | no token is given out twice, for a write or for a timer |
| `SupervisorRuns.OneTick` | transport/crypto-core/src/target_transport.rs:934-984 | only an effective tick spends a tick, and only a heartbeat gives missed ones back |
| `SupervisorRuns.LeaseIsBounded` | transport/crypto-core/src/target_transport.rs:946-968 | a lease sees at most thirty effective ticks in any run |
| `SupervisorRuns.SilenceIsBounded` | transport/crypto-core/src/target_transport.rs:946-968 | any run without a heartbeat has at most four effective ticks |
| `SupervisorGaps.RefusedCallLosesFrames` | transport/crypto-core/src/target_transport.rs:706-874 | a call refused with WrongPhase leaves the whole state as it was, unless it gives bytes that complete a frame to a session that is not waiting for the peer while a timer can still be started; then, and for such bytes always, it is refused, exactly the completed frames are lost, the decoder holds the leftover and the frame timer follows it |
| `SupervisorGaps.RefusedCallChangesState` | transport/crypto-core/src/target_transport.rs:706-874 | a refused call changes the state if and only if it loses frames and its leftover differs from the bytes held before |
| `SupervisorGaps.EnvelopeIsLostUnannounced` | transport/crypto-core/src/target_transport.rs:714-725 | a concrete reachable run: a session with an application in hand gets one envelope and a byte, the call is refused, the envelope is gone, and a live terminal timer was announced to nobody |
| `SupervisorGaps.DriveTells` | transport/crypto-core/src/target_transport.rs:230-277 | every call starts exactly the timer its outcome announces, except the calls that start a frame timer and then are refused, drop the outcome of it for a last Close, or run out of tokens |
| `SupervisorGaps.LiveTimerIsUnannouncedExactly` | transport/crypto-core/src/target_transport.rs:230-277 | over every run, a live timer was never announced if and only if such a silent call started it |
| `SupervisorGaps.TickSlotDiesExactly` | transport/crypto-core/src/target_transport.rs:946-968 | over every run, the tick slot of a lease names no live timer if and only if a tick fired after the last token had been given out |
| `SupervisorExhaustion.TickSlotDies` | transport/crypto-core/src/target_transport.rs:946-968 | a reachable run in which it does: sessions that open and end use the counter up, then the tick fires, the call fails and no timer is live any more |
| `SupervisorExhaustion.CutOffIsReported` | transport/crypto-core/src/target_transport.rs:1031-1058 | a reachable run in which an application is read at the last token and never handed out, and the end of its session reports a hand-off |
| `SupervisorEnds.LeaseEndTellsHandoff` | transport/crypto-core/src/target_transport.rs:1060-1085 | over every run, a lease end admits a hand-off if and only if some session still known just before has had an application handed out or cut off |
| `SupervisorEnds.LeaseEndIsKept` | transport/crypto-core/src/target_transport.rs:230-250 | and every later call repeats it |
| `SupervisorEnds.EndedSessionIsForgotten` | transport/crypto-core/src/target_transport.rs:1060-1085 | a session that has ended before is not counted: two reachable runs with one application handed out, whose lease ends admit and deny it |
| `SupervisorService.RefusedExactly` | transport/crypto-core/src/target_transport.rs:230-277 | an event is refused with InvalidArgument if and only if it is not shaped as its tag asks, with WrongPhase if and only if nobody waits for it, and a call fails for no other reason than that tokens, applications or the first message have run out |
| `SupervisorService.LeaseBegins` | transport/crypto-core/src/target_transport.rs:333-447 | from the start, with cores that agree, the bootstrap messages are written and committed and the lease begins with the generation and epoch the core was admitted with |
| `SupervisorService.SessionOpens` | transport/crypto-core/src/target_transport.rs:449-874 | in any reachable lease with three tokens left, an accepted stream becomes a session: its messages are written as the core made them, and it comes to wait for an application |
| `SupervisorService.SessionExchanges` | transport/crypto-core/src/target_transport.rs:449-874 | from there every exchange comes about: the application is handed out as the core read it, the response is written in one piece, and the session waits for the next |
| `SupervisorService.HeartbeatIsAnswered` | transport/crypto-core/src/target_transport.rs:660-704 | a heartbeat the core accepts is answered with the bytes of the core, takes back the missed ticks and changes nothing else |
| `SupervisorDeadlines.DeadlinesAreTimely` | transport/crypto-core/src/target_transport.rs:230-277 | every announced deadline is that of a timer that runs after the call, and as long as the purpose of that timer says: 10 s for the bootstrap, 2 s for a frame, 30 s for a tick or an idle session, 1, 2 or 30 s for the phase of a session |
| `SupervisorReasons.EndsTellWhy` | transport/crypto-core/src/target_transport.rs:230-277 | whatever the event and the answers, the end of a session or of the lease gives exactly the reason and the peer Close its cause asks for, and a last Close the bytes, reason and peer Close of the error it is for, which its session keeps for the end it will report |
| `SupervisorReasons.TicksEndExactly` | transport/crypto-core/src/target_transport.rs:946-968 | over every run, a tick ends the lease if and only if it is the thirtieth, with Stale, or else the fourth since the last heartbeat that was heard, with BrokerLost |
| `SilentSessions.SilentExactly` | transport/crypto-core/src/target_transport.rs:706-874 | with the session cores composed in, a call is silent about the frame timer it starts if and only if, by the state, the core and the bytes before the call: the session is not waiting for the peer, or its core reaches a receiving quota on these frames while a token is left, or tokens or applications have run out |
| `SilentSessions.UnannouncedByCores` | transport/crypto-core/src/target_transport.rs:230-277 | over every run of the supervisor with its cores, a live timer was never announced if and only if a call started it that was silent in that sense |
| `SilentSessions.ReadClosesExactly` | transport/crypto-core/src/lib.rs:1923-1960 | a Target read ends in a last Close if and only if its frame opens and reaches the record or byte quota |
| `SupervisedSessions.LastCloseNeverDenies` | transport/crypto-core/src/target_transport.rs:1031-1058 | the supervisor composed with the session cores of its streams: over every run a session core admits a hand-off exactly when an application was handed out or cut off, and every last Close put on the wire says RecordLimit and admits a hand-off whenever an application was handed out |
| `SupervisedSessions.StepKept` | transport/crypto-core/src/target_transport.rs:230-277 | every event keeps the core of every session in step with it, and a last Close that is written tells the truth |
| `SupervisedSessions.BatchTells` | transport/crypto-core/src/target_transport.rs:706-874 | what the supervisor makes of a batch of frames agrees with what the core says of its hand-off after reading them |
| `SupervisedSessions.CallIsTruthful` | transport/crypto-core/src/lib.rs:1502-1550 | a Target call that succeeds admits a hand-off exactly if it did before or it delivers, and a last Close in a failure says at least as much as the core did |
| `SupervisorObject.TargetTransport.Drive` | transport/crypto-core/src/target_transport.rs:230-277 | the imperative supervisor refines the transition function every run theorem is about |
| `SupervisorObject.TargetTransport.Close` | transport/crypto-core/src/target_transport.rs:279-299 | refines the handler of the transition function: outcome and whole new state |
| `SupervisorObject.TargetTransport.TerminalTimerTokens` | transport/crypto-core/src/target_transport.rs:312-331 | returns exactly the live tokens the exactness theorem speaks of |
| `SupervisorObject.TargetTransport.BootstrapConnected` | transport/crypto-core/src/target_transport.rs:333-369 | refines the handler of the transition function: outcome and whole new state |
| `SupervisorObject.TargetTransport.FullWriteCommitted` | transport/crypto-core/src/target_transport.rs:371-447 | refines the handler of the transition function: outcome and whole new state |
| `SupervisorObject.TargetTransport.CommitChildWrite` | transport/crypto-core/src/target_transport.rs:449-500 | refines the commit step with the phase parked on its placeholder, so that a last Close finds no lease to remove the session from |
| `SupervisorObject.TargetTransport.SessionAccepted` | transport/crypto-core/src/target_transport.rs:502-538 | refines the handler of the transition function: outcome and whole new state |
| `SupervisorObject.TargetTransport.RuntimeResponse` | transport/crypto-core/src/target_transport.rs:540-570 | refines the handler of the transition function: outcome and whole new state |
| `SupervisorObject.TargetTransport.StreamBytes` | transport/crypto-core/src/target_transport.rs:572-588 | refines the handler of the transition function: outcome and whole new state |
| `SupervisorObject.TargetTransport.BootstrapBytes` | transport/crypto-core/src/target_transport.rs:590-658 | refines the handler of the transition function: outcome and whole new state |
| `SupervisorObject.TargetTransport.LeaseBytes` | transport/crypto-core/src/target_transport.rs:660-704 | refines the handler of the transition function: outcome and whole new state |
| `SupervisorObject.TargetTransport.SessionBytes` | transport/crypto-core/src/target_transport.rs:706-874 | refines the handler of the transition function: outcome and whole new state |
| `SupervisorObject.TargetTransport.StreamClosed` | transport/crypto-core/src/target_transport.rs:876-932 | refines the handler of the transition function: outcome and whole new state |
| `SupervisorObject.TargetTransport.TimerFired` | transport/crypto-core/src/target_transport.rs:934-984 | refines the handler of the transition function: outcome and whole new state |
| `SupervisorObject.TargetTransport.ChildCoreError` | transport/crypto-core/src/target_transport.rs:986-1024 | refines the handler of the transition function: outcome and whole new state |
| `SupervisorObject.TargetTransport.EndChild` | transport/crypto-core/src/target_transport.rs:1031-1058 | refines the handler of the transition function: outcome and whole new state |
| `SupervisorObject.TargetTransport.EndLease` | transport/crypto-core/src/target_transport.rs:1060-1085 | refines the handler of the transition function: outcome and whole new state |
| `SupervisorObject.TargetTransport.ReplaceChildTimer` | transport/crypto-core/src/target_transport.rs:1269-1311 | refines the handler of the transition function: outcome and whole new state |
| `SupervisorObject.TargetTransport.UpdateFrameTimer` | transport/crypto-core/src/target_transport.rs:1250-1268 | refines the handler of the transition function: outcome and whole new state |
| `SupervisorObject.TargetTransport.AllocateToken` | transport/crypto-core/src/target_transport.rs:1231-1238 | refines the handler of the transition function: outcome and whole new state |
| `SupervisorObject.TargetTransport.ScheduleTimer` | transport/crypto-core/src/target_transport.rs:1240-1248 | refines the handler of the transition function: outcome and whole new state |
| `OwnedOp.ExactlyOnce` | cli/crates/host-runtime/src/owned_op.rs:69-175 | over every interleaving of one producer and any number of consumer threads the resource has exactly one holder, ends with at most one of a consumer and the reaper, is reaped at most once and only after an abandon won, a thread that has won finds it in the cell, and no panicking site is reached |
| `OwnedOp.AtRest` | cli/crates/host-runtime/src/owned_op.rs:69-175 | once all threads rest, a published resource waits for the next taker or was taken once, and an abandoned one was reaped; that it can be taken is OwnedOutcomes.ReadyCanBeTaken |
| `OwnedOp.SoleWaitReturns` | cli/crates/host-runtime/src/owned_op.rs:96-127 | with one consumer, a wait entered while the result is being produced or is ready, once past its deadline, always can step, comes nearer its return by each of its steps and is moved away by none of the producer |
| `OwnedOp.SoleWaitComesBack` | cli/crates/host-runtime/src/owned_op.rs:96-127 | so in every run that gives it the steps it needs, at most five, it has come back |
| `OwnedOp.HopelessWaitNeverReturns` | cli/crates/host-runtime/src/owned_op.rs:96-127 | a wait that finds any other stage never returns, whoever moves |
| `OwnedOp.SoleWaitNeedsHope` | cli/crates/host-runtime/src/owned_op.rs:96-127 | with one consumer, in every reachable world a wait just entered can return in some run if and only if the result is being produced or is ready |
| `OwnedOp.HopelessWaitStarves` | cli/crates/host-runtime/src/owned_op.rs:96-175 | a wait on any other stage keeps the lock past its deadline: whatever the producer has done and whoever else there is, a resource not yet received is never handed over and never reaped |
| `OwnedOp.StarvesExactly` | cli/crates/host-runtime/src/owned_op.rs:96-175 | over every run, such a wait starves all later runs if and only if the resource had not been received and the reaper did not have it in hand |
| `OwnedOp.AbandonThenWaitStarves` | cli/crates/host-runtime/src/owned_op.rs:96-175 | a concrete run: abandon, then wait; the wait never returns, and past its deadline the producer keeps its resource in every continuation |
| `OwnedOp.StepKeeps` | cli/crates/host-runtime/src/owned_op.rs:69-175 | every atomic step of every thread keeps the joint invariant |
| `OwnedOp.RunKeeps` | cli/crates/host-runtime/src/owned_op.rs:69-175 | so does every run |
| `OwnedOutcomes.CallsDecide` | cli/crates/host-runtime/src/owned_op.rs:68-127 | a take wins if and only if it makes its exchange on a ready stage, an abandon or a wait past its deadline gives up if and only if it makes it on a producing one |
| `OwnedOutcomes.ComesBackWith` | cli/crates/host-runtime/src/owned_op.rs:68-127 | whenever a call comes back it has delivered the resource, or has given the operation up and cancelled, or has changed nothing |
| `OwnedOutcomes.WinnerIsDelivered` | cli/crates/host-runtime/src/owned_op.rs:68-127 | over every run, a take or a wait that looks at a ready stage wins, and whenever its thread rests after that the resource has been delivered |
| `OwnedOutcomes.StopperIsHeard` | cli/crates/host-runtime/src/owned_op.rs:80-127 | over every run, an abandon or a late wait that looks at a producing stage gives up, and whenever its thread rests after that the producer has been told to stop |
| `OwnedOutcomes.CancelledExactly` | cli/crates/host-runtime/src/owned_op.rs:80-127 | over every run, once no thread is about to cancel, the producer has been told to stop if and only if an abandon won |
| `OwnedOutcomes.PublishAnswers` | cli/crates/host-runtime/src/owned_op.rs:129-175 | over every run, publish comes back with the resource published if and only if nobody gave up before, and else with what the reaper answered |
| `OwnedOutcomes.ReadyCanBeTaken` | cli/crates/host-runtime/src/owned_op.rs:68-78 | from every reachable world with a ready stage and a free lock, any thread at rest can take, and the resource is delivered |
| `OwnedOutcomes.PublishComesAbout` | cli/crates/host-runtime/src/owned_op.rs:129-175 | a producer nobody gives up on publishes in four steps |
| `OwnedOutcomes.ReapComesAbout` | cli/crates/host-runtime/src/owned_op.rs:80-175 | an abandoned operation is reaped, whatever its reaper answers |
| `Coordinator.OneWriterPerTarget` | ios/Sources/AppPilotKit/TargetActionCoordinator.swift:205-261 | however invocations interleave at their suspension points, per target at most one is past tryAcquire, a target is busy exactly while one is, and nothing is busy once all are done |
| `Coordinator.ErrorsAreHonest` | ios/Sources/AppPilotKit/TargetActionCoordinator.swift:133-261 | a handler runs at most once; any error but outcomeUnknown means it never ran; once it ran only success or outcomeUnknown remains; a destructive one ran only after exactly one grant was consumed |
| `Coordinator.UnknownMeansRan` | ios/Sources/AppPilotKit/TargetActionCoordinator.swift:205-261 | over every run, an invocation ends in outcomeUnknown without its handler having run if and only if some answer to it, taken while validating or resolving, was that very error thrown by a closure |
| `Coordinator.NoneThrowsUnknown` | ios/Sources/AppPilotKit/TargetActionCoordinator.swift:205-261 | so in an app whose closures never throw it, an invocation that ends in outcomeUnknown has run its handler |
| `Coordinator.ResolverCanClaimUnknown` | ios/Sources/AppPilotKit/TargetActionCoordinator.swift:263-285 | a concrete run in which the policy resolver of an ordinary mutation throws outcomeUnknown and is passed through, the handler never having run |
| `Coordinator.EveryAnswerAdvances` | ios/Sources/AppPilotKit/TargetActionCoordinator.swift:133-261 | every answer brings its invocation nearer its end and leaves the others alone; a writer is held for at most twelve answers |
| `Coordinator.ResumeIsHonest` | ios/Sources/AppPilotKit/TargetActionCoordinator.swift:133-261 | each resumption, with any answer, keeps the classification truthful; which answer leads where is CoordinatorOutcomes.SucceedsExactly |
| `CoordinatorOutcomes.SucceedsExactly` | ios/Sources/AppPilotKit/TargetActionCoordinator.swift:133-261 | over every run, an invocation succeeds if and only if every liveness answer was active and not cancelled before the hand-off, the policy resolved to the declared one, the grant was checked and consumed where the policy is destructive, the target was free, and no closure failed |
| `CoordinatorOutcomes.FailsExactly` | ios/Sources/AppPilotKit/TargetActionCoordinator.swift:133-285 | over every run, it fails if and only if the last answer it was given is the first that does not pass, and with the error that answer is to blame for |
| `CoordinatorOutcomes.WaitsExactly` | ios/Sources/AppPilotKit/TargetActionCoordinator.swift:133-261 | and while it runs it waits where its answers have brought it |
| `CoordinatorOutcomes.SensibleSucceeds` | ios/Sources/AppPilotKit/TargetActionCoordinator.swift:133-261 | every sensible request succeeds in some run, its handler run once, its grant consumed once where one is needed, and its target free again |
| `Coordinator.TargetWriterTable.TryAcquire` | ios/Sources/AppPilotKit/TargetActionCoordinator.swift:354-360 | succeeds exactly when the target was free, which is then busy |
| `Coordinator.TargetWriterTable.Release` | ios/Sources/AppPilotKit/TargetActionCoordinator.swift:362-366 | frees that target and no other |
| `Coordinator.DispatchClaim.Handoff` | ios/Sources/AppPilotKit/TargetActionCoordinator.swift:95-104 | only the first call may run the handler |
| `Graph.AcceptedExactlyTrees` | ios/Sources/AppPilotKit/UISnapshotRuntime.swift:689-743 | the structure check accepts exactly the preorder listings of one rooted tree with matching depth, child index and child count, with distinct non-empty identifiers |
| `Graph.TreeIsAccepted` | ios/Sources/AppPilotKit/UISnapshotRuntime.swift:689-743 | every such listing is accepted |
| `Graph.AcceptedIsTree` | ios/Sources/AppPilotKit/UISnapshotRuntime.swift:689-743 | every accepted list is such a listing |
| `Graph.ValidateGraph` | ios/Sources/AppPilotKit/UISnapshotRuntime.swift:689-743 | the one-pass loop over identifiers, stack and child indices answers the check |
| `Graph.VisitNode` | ios/Sources/AppPilotKit/UISnapshotRuntime.swift:694-732 | one round of that loop is one step of the check |
| `Graph.PopTo` | ios/Sources/AppPilotKit/UISnapshotRuntime.swift:719-721 | popping leaves the ancestors at the given depth |
| `ViewCapture.Capture` | ios/Sources/AppPilotKitUIKit/UIKitSnapshotProvider.swift:69-108 | the explicit-stack traversal equals the recursive preorder listing of the view tree |
| `ViewCapture.CaptureIsAccepted` | ios/Sources/AppPilotKitUIKit/UIKitSnapshotProvider.swift:69-108 | the structure of every captured view hierarchy passes the structure check |
| `ViewCapture.NameIsInjective` | ios/Sources/AppPilotKitUIKit/UIKitSnapshotProvider.swift:78-78 | generated identifiers are distinct |
| `ViewCapture.NamesAreDecimal` | ios/Sources/AppPilotKitUIKit/UIKitSnapshotProvider.swift:78-78 | they are "view." and the number in decimal |
| `SnapshotStore.StoreIsLongestEnd` | ios/Sources/AppPilotKit/UISnapshotRuntime.swift:574-584 | after any captures the store is the longest end of everything ever captured that fits both limits |
| `SnapshotStore.PlayedIsLongestEnd` | ios/Sources/AppPilotKit/UISnapshotRuntime.swift:574-606 | after captures and invalidations in any order, the store is what an unlimited one would hold of the moves from some point on: the first point from which that would have been within both limits all along |
| `SnapshotStore.TrimIsLongest` | ios/Sources/AppPilotKit/UISnapshotRuntime.swift:577-584 | eviction keeps the longest suffix within both limits |
| `SnapshotStore.CaptureKeepsNew` | ios/Sources/AppPilotKit/UISnapshotRuntime.swift:553-586 | a capture that fits on its own is always kept |
| `SnapshotStore.SurvivesWhileItFits` | ios/Sources/AppPilotKit/UISnapshotRuntime.swift:577-584 | a snapshot is still stored exactly as long as it and all later ones are within the limits |
| `SnapshotStore.OutsideTotals` | ios/Sources/AppPilotKit/UISnapshotRuntime.swift:599-606 | what an invalidation frees and what it keeps add up to what was stored |
| `SnapshotStore.Store.Commit` | ios/Sources/AppPilotKit/UISnapshotRuntime.swift:553-587 | a commit fails, changing nothing, exactly when the snapshot exceeds the byte limit or the counter overflows; otherwise the queue is the trimmed extension and holds the new snapshot; map, order and byte total mirror the queue |
| `SnapshotStore.Store.Evict` | ios/Sources/AppPilotKit/UISnapshotRuntime.swift:577-584 | the in-place loop over map, order and total trims the queue and keeps the mirror |
| `SnapshotStore.Store.Resolve` | ios/Sources/AppPilotKit/UISnapshotRuntime.swift:589-597 | finds the stored snapshot of that identity and scope, or reports expiry exactly when there is none |
| `SnapshotStore.Store.Invalidate` | ios/Sources/AppPilotKit/UISnapshotRuntime.swift:599-606 | removes exactly the snapshots of the scope, keeping order, total and generation |
| `Pagination.ListingConserves` | ios/Sources/AppPilotKit/SemanticProtocolRuntime.swift:420-488 | along any chain of successful calls with anything in between, the pages concatenate to a prefix of the frozen visible items, all of them exactly when the last page has no cursor |
| `Pagination.ChainConserves` | ios/Sources/AppPilotKit/SemanticProtocolRuntime.swift:420-488 | the same from any live cursor on: consecutive pieces, no gap, no repeat |
| `Pagination.ListingSucceedsExactly` | ios/Sources/AppPilotKit/SemanticProtocolRuntime.swift:453-488 | the shrinking loop yields a page exactly when some start of the rest fits the applied limit before a longer one exceeds the response limit |
| `Pagination.ShrinkIsRight` | ios/Sources/AppPilotKit/SemanticProtocolRuntime.swift:453-488 | a chosen page is the longest start tried that fits, within both applied limits; the only failure is resource exhaustion |
| `Pagination.EmptyPageWhen` | ios/Sources/AppPilotKit/SemanticProtocolRuntime.swift:453-488 | a page is empty exactly when no page of one item or more fits the applied limit |
| `Pagination.ChainEnds` | ios/Sources/AppPilotKit/SemanticProtocolRuntime.swift:420-488 | if every one-item page fits, a chain is no longer than the items left |
| `Pagination.NextBringsSome` | ios/Sources/AppPilotKit/SemanticProtocolRuntime.swift:420-488 | and every page brings at least one item |
| `Pagination.FailedPageLosesCursor` | ios/Sources/AppPilotKit/SemanticProtocolRuntime.swift:420-488 | a failing later page keeps its cursor, and changes nothing, if and only if the session, token, context or catalog check before it refuses; once admitted, it fails exactly when no start of the rest will do, and the cursor is gone |
| `Pagination.FarTooLongFails` | ios/Sources/AppPilotKit/SemanticProtocolRuntime.swift:453-488 | a concrete listing under limits the runtime accepts: a slightly too long page shrinks to one item, and a far too long one fails although one item fits |
| `Pagination.EmptyPageWithItemsLeft` | ios/Sources/AppPilotKit/SemanticProtocolRuntime.swift:453-488 | a concrete listing under accepted limits whose page is empty while an item remains |
| `Pagination.LostCursorCutsChain` | ios/Sources/AppPilotKit/SemanticProtocolRuntime.swift:432-447 | a concrete chain under accepted limits: the second page fails, its cursor is gone, and asking again is refused whatever the host |
| `Listings.PagesTell` | ios/Sources/AppPilotKit/SemanticProtocolRuntime.swift:453-488 | every page tells the stricter of the limits asked for and those of the host, has a cursor exactly when there is more, and then names the one limit that ended it; where that is its bytes, a page of one item more was too long |
| `Listings.NextRefusedExactly` | ios/Sources/AppPilotKit/SemanticProtocolRuntime.swift:428-440 | a later page is refused as expired session, invalid cursor or expired cursor exactly when the session is over, no open cursor of this session has the token, or the catalog has changed |
| `Listings.FirstRefusedExactly` | ios/Sources/AppPilotKit/SemanticProtocolRuntime.swift:440-446 | a first page fails exactly because the session is over, or because of its size |
| `Pagination.StepKeeps` | ios/Sources/AppPilotKit/SemanticProtocolRuntime.swift:383-488 | every call keeps cursors bound to live sessions, with items left and tokens once issued |
| `Pagination.StepIsFair` | ios/Sources/AppPilotKit/SemanticProtocolRuntime.swift:420-488 | a cursor is unchanged until used, and a used or dropped one never comes back |
| `Pagination.Runtime.First` | ios/Sources/AppPilotKit/SemanticProtocolRuntime.swift:420-488 | refines the first-page function: answer and both dictionaries |
| `Pagination.Runtime.Next` | ios/Sources/AppPilotKit/SemanticProtocolRuntime.swift:432-488 | refines the later-page function, cursor removed first |
| `Pagination.Runtime.ListPage` | ios/Sources/AppPilotKit/SemanticProtocolRuntime.swift:453-488 | the loop that shortens the page refines the page choice |
| `Pagination.Runtime.InvalidateSessions` | ios/Sources/AppPilotKit/SemanticProtocolRuntime.swift:202-206 | no session and no cursor is left |
| `AppTree.StreamIdentifiesBundle` | cli/crates/apple-simulator-adapter/src/artifact.rs:674-768 | two accepted bundles have the same stream exactly when they have the same entries, and every inner node of an accepted one is one of its directories |
| `BundleIdentity.StreamIdentifiesTree` | cli/crates/apple-simulator-adapter/src/artifact.rs:435-785 | two accepted bundles have the same stream if and only if they are one directory tree, enumerated in whatever order at every level |
| `BundleAcceptance.AcceptedExactly` | cli/crates/apple-simulator-adapter/src/artifact.rs:435-526 | a bundle is accepted if and only if every name is one, no path too deep or too long, no file too large, nothing is special, no two siblings have the same name, and entries and content are within their budgets; in a tree the topology check never fails |
| `BundleAcceptance.PathExactly` | cli/crates/apple-simulator-adapter/src/artifact.rs:787-818 | a name makes a valid path below a valid one exactly if it is a name and the path gets neither too deep nor too long |
| `BundleStream.SmallStream` | cli/crates/apple-simulator-adapter/src/artifact.rs:674-768 | the stream of a small bundle, byte by byte |
| `AppTree.StreamIsInjective` | cli/crates/apple-simulator-adapter/src/artifact.rs:674-768 | two lists of well-formed entries with the same stream agree in every path, kind, executable class and content |
| `AppTree.RecordDetermines` | cli/crates/apple-simulator-adapter/src/artifact.rs:753-768 | a record tells where it ends and what it holds |
| `AppTree.EnumerationOrderIsIrrelevant` | cli/crates/apple-simulator-adapter/src/artifact.rs:435-460 | two trees whose directories list the same children in any order, at every level, are both refused or both accepted with the same canonical list |
| `AppTree.ReorderedKeepsEntries` | cli/crates/apple-simulator-adapter/src/artifact.rs:462-526 | such trees have the same bag of entries |
| `AppTree.PreparedPermuted` | cli/crates/apple-simulator-adapter/src/artifact.rs:435-460 | acceptance and canonical list depend only on the bag of entries found |
| `AppTree.SortSorts` | cli/crates/apple-simulator-adapter/src/artifact.rs:447-448 | sorting by path gives an ascending permutation |
| `AppTree.SortedOnlyOne` | cli/crates/apple-simulator-adapter/src/artifact.rs:447-456 | a strictly ascending list is the only ascending list of its entries |
| `AppTree.InnerNodesAreDirectories` | cli/crates/apple-simulator-adapter/src/artifact.rs:770-785 | in a list with valid topology every directory above an entry is itself a directory entry |
| `AppTree.Collector.CollectDirectory` | cli/crates/apple-simulator-adapter/src/artifact.rs:462-526 | the recursive walk rejects exactly when something in the whole listing breaks a path, count or size budget or is no plain file or directory, and otherwise appends exactly that listing |
| `AppTree.Collector.RequireFileBudget` | cli/crates/apple-simulator-adapter/src/artifact.rs:820-829 | admits a file exactly when it and the running total stay within their limits |
| `AppTree.CollectEntries` | cli/crates/apple-simulator-adapter/src/artifact.rs:435-460 | walk, sort and checks compute the canonical list of the bundle, or reject |
| `AppTree.ValidateTopology` | cli/crates/apple-simulator-adapter/src/artifact.rs:770-785 | accepts exactly the lists in which every parent is a directory |
| `AppTree.Hasher.HashEntries` | cli/crates/apple-simulator-adapter/src/artifact.rs:674-746 | what is handed to the digest in place is the canonical stream of the entries |
| `OpenStepReading.AcceptedExactlyPrinted` | cli/crates/apple-simulator-adapter/src/lib.rs:1158-1407 | the root parse accepts a byte string with a set of keys if and only if it is the print of some good document within the caps whose distinct top-level keys are those |
| `OpenStepReading.EntriesIs` | cli/crates/apple-simulator-adapter/src/lib.rs:1168-1187 | dictionary entries that are read are printed entries, with the keys and node count the reader returned |
| `OpenStepReading.ValueIs` | cli/crates/apple-simulator-adapter/src/lib.rs:1189-1224 | a value that is read is a printed value, of that node count and within the depth |
| `OpenStepReading.InnerIs` | cli/crates/apple-simulator-adapter/src/lib.rs:1245-1298 | the inside of a quoted string that is read is a printed one with the meaning returned |
| `OpenStepReading.EscapeIs` | cli/crates/apple-simulator-adapter/src/lib.rs:1300-1348 | an escape that is read is a printed one with the value returned |
| `OpenStepReading.TriviaIs` | cli/crates/apple-simulator-adapter/src/lib.rs:1361-1393 | what is passed over is whitespace and comments, at the very end perhaps a line comment without a newline |
| `OpenStepText.PrintedDocumentReads` | cli/crates/apple-simulator-adapter/src/lib.rs:1158-1407 | for every document printed with escapes, comments, quoting and nested values within the caps, the root parse returns exactly its set of distinct top-level keys |
| `OpenStepText.EntriesRead` | cli/crates/apple-simulator-adapter/src/lib.rs:1168-1187 | printed dictionary entries are read to their end, counted, and add exactly their keys |
| `OpenStepText.ValueReads` | cli/crates/apple-simulator-adapter/src/lib.rs:1189-1224 | every printed value is read to its end and counted |
| `OpenStepText.InnerReads` | cli/crates/apple-simulator-adapter/src/lib.rs:1245-1298 | a printed quoted string is read back to its meaning |
| `OpenStepText.EscapeReads` | cli/crates/apple-simulator-adapter/src/lib.rs:1300-1348 | every printed escape is read back to its character |
| `OpenStepText.DataReads` | cli/crates/apple-simulator-adapter/src/lib.rs:1226-1243 | printed hex data is read to its closing bracket |
| `OpenStepSample.SampleReads` | cli/crates/apple-simulator-adapter/src/lib.rs:1158-1407 | a small list with an escape, an array and data, byte by byte |
| `OpenStepSample.EscapesMean` | cli/crates/apple-simulator-adapter/src/lib.rs:1300-1348 | the nine one-letter escapes and what each stands for, by their bytes |
| `OpenStepSample.UnicodeMeans` | cli/crates/apple-simulator-adapter/src/lib.rs:1300-1348 | four hexadecimal digits of either case are one character, the most significant first |
| `OpenStepSample.BlanksArePassed` | cli/crates/apple-simulator-adapter/src/lib.rs:1361-1393 | the five blanks are passed over, and a vertical tab is not |
| `OpenStepParser.Parser.ParseRootDictionary` | cli/crates/apple-simulator-adapter/src/lib.rs:1158-1166 | terminates with its cursor in bounds on every byte string and answers the grammar's key set |
| `OpenStepParser.Parser.ParseDictionary` | cli/crates/apple-simulator-adapter/src/lib.rs:1168-1187 | one dictionary, by the grammar, with cursor and node count |
| `OpenStepParser.Parser.ParseValue` | cli/crates/apple-simulator-adapter/src/lib.rs:1189-1204 | one value of any kind, by the grammar |
| `OpenStepParser.Parser.ParseArray` | cli/crates/apple-simulator-adapter/src/lib.rs:1206-1224 | one array, by the grammar |
| `OpenStepParser.Parser.ParseData` | cli/crates/apple-simulator-adapter/src/lib.rs:1226-1243 | one data literal, by the grammar |
| `OpenStepParser.Parser.ParseString` | cli/crates/apple-simulator-adapter/src/lib.rs:1245-1298 | one string, by the grammar, captured or not |
| `OpenStepParser.Parser.ParseEscape` | cli/crates/apple-simulator-adapter/src/lib.rs:1300-1348 | one escape, by the grammar |
| `OpenStepParser.Parser.SkipTrivia` | cli/crates/apple-simulator-adapter/src/lib.rs:1361-1393 | exactly the whitespace and comments the grammar skips |
| `ManifestMeaning.AcceptedExactlyWritten` | cli/crates/android-emulator-adapter/src/apk.rs:232-361 | a byte string is accepted as a manifest of a package if and only if it is the writing of some pool, resource map and good tree: the bytes of every attribute, element, namespace and chunk, of which nothing else is read |
| `ManifestMeaning.WrittenIsAccepted` | cli/crates/android-emulator-adapter/src/apk.rs:232-361 | every such writing is accepted, with the strings, the resources and the facts that the values of the tree tell |
| `ManifestMeaning.AcceptedIsWritten` | cli/crates/android-emulator-adapter/src/apk.rs:232-361 | and whatever is accepted is such a writing |
| `ManifestMeaning.ValidExactly` | cli/crates/android-emulator-adapter/src/apk.rs:40-53 | a manifest is valid for a package if and only if it is such a writing of a tree with one application and one bootstrap activity, exported and enabled |
| `ManifestSample.BootstrapIsRead` | cli/crates/android-emulator-adapter/src/apk.rs:232-361 | for every package, either encoding and every number of the exported attribute there is an accepted manifest whose facts are one application and one bootstrap activity, exported unless the number is zero, and enabled |
| `ManifestSample.ExportedIsValid` | cli/crates/android-emulator-adapter/src/apk.rs:40-53 | which is valid exactly if that number is not zero |
| `ManifestSample.ElementBytes` | cli/crates/android-emulator-adapter/src/apk.rs:470-543 | an element with a boolean and a text attribute, byte by byte |
| `ManifestSample.TagBytes` | cli/crates/android-emulator-adapter/src/apk.rs:26-32 | the first eight bytes of every kind of chunk |
| `ManifestText.AttributeReads` | cli/crates/android-emulator-adapter/src/apk.rs:500-535 | the twenty bytes of an attribute are read as its namespace, name, resource, raw text and value, a boolean being true exactly for a number other than zero |
| `ManifestText.AttributeIs` | cli/crates/android-emulator-adapter/src/apk.rs:500-535 | and nothing else is read as an attribute |
| `ManifestText.StartReads` | cli/crates/android-emulator-adapter/src/apk.rs:470-543 | the bytes of a start element are read as its name and attributes |
| `ManifestText.StartIs` | cli/crates/android-emulator-adapter/src/apk.rs:470-543 | and nothing else is read as one |
| `ManifestPieces.MapReads` | cli/crates/android-emulator-adapter/src/apk.rs:363-380 | a resource map is read exactly when it is written so, with at least one entry and no more than there are strings |
| `ManifestPieces.DocumentTakes` | cli/crates/android-emulator-adapter/src/apk.rs:232-361 | reading a written manifest does to an empty stack what its elements say |
| `ManifestPieces.DocumentIs` | cli/crates/android-emulator-adapter/src/apk.rs:232-361 | whatever is accepted is a pool, namespaces, a resource map and then elements with namespaces between |
| `ManifestMeaning.TreeFollows` | cli/crates/android-emulator-adapter/src/apk.rs:232-361 | the elements of a tree go through if and only if the tree is good, and leave the facts it tells |
| `ManifestMeaning.TextExactly` | cli/crates/android-emulator-adapter/src/apk.rs:388-432 | a text attribute is found if and only if exactly one attribute carries the namespace, name and identifier, no other claims the name or the identifier, and its raw text agrees |
| `ManifestMeaning.FlagExactly` | cli/crates/android-emulator-adapter/src/apk.rs:388-450 | and so is a boolean one, its raw text being the word for it |
| `ManifestMeaning.NameExactly` | cli/crates/android-emulator-adapter/src/apk.rs:696-707 | a name is the bootstrap activity exactly in its three spellings, and is refused exactly if it is empty or not graphic |
| `ManifestMeaning.BootstrapExactly` | cli/crates/android-emulator-adapter/src/apk.rs:305-317 | an element is the bootstrap activity exactly if it is an activity of an application and says one of these names |
| `ManifestMeaning.DeclaresExactly` | cli/crates/android-emulator-adapter/src/apk.rs:318-332 | it declares whether it is exported, and is enabled unless it says otherwise |
| `ManifestPools.PoolExactly` | cli/crates/android-emulator-adapter/src/apk.rs:575-694 | a pool is read as a list of strings if and only if its header is well formed and every string stands, as text in UTF-8 or UTF-16 behind its counts, where its offset says, all of them within the budget |
| `ManifestPools.WrittenPoolReads` | cli/crates/android-emulator-adapter/src/apk.rs:575-694 | every list of texts that fits is read back from the pool written for it, in either encoding |
| `ManifestTree.AcceptedIsOneTree` | cli/crates/android-emulator-adapter/src/apk.rs:232-361 | on acceptance the chunks tile the file from byte 8 to its end, the elements are the listing of one tree of depth at most 256 with a manifest root of the expected package, and the facts are those of the tree: its applications under the manifest, its one bootstrap activity if any, and whether that is exported and enabled |
| `ManifestTree.NoteIs` | cli/crates/android-emulator-adapter/src/apk.rs:470-543 | noting an element counts it exactly when it is an application under the manifest, records it exactly when it is the bootstrap activity, and takes the package from the root alone |
| `ManifestTree.AcceptedWithinBudget` | cli/crates/android-emulator-adapter/src/apk.rs:232-361 | on acceptance all decoded strings together stay within 2 MiB and 65536 strings, the package is the expected one, and at most one bootstrap activity was noted |
| `ManifestTree.AcceptedTiles` | cli/crates/android-emulator-adapter/src/apk.rs:232-361 | accepted chunks follow one another without gap or overlap |
| `ManifestTree.ParserFollows` | cli/crates/android-emulator-adapter/src/apk.rs:232-361 | the element stack moves exactly as the start and end events do |
| `ManifestTree.ReadNodes` | cli/crates/android-emulator-adapter/src/apk.rs:232-361 | events that end with an empty stack parse back into complete nested elements |
| `Manifest.PoolWithinBudget` | cli/crates/android-emulator-adapter/src/apk.rs:575-611 | an accepted string pool stays within the decoded budget and count |
| `ManifestStrings.PoolsAgree` | cli/crates/android-emulator-adapter/src/apk.rs:613-694 | the same text in a UTF-8 and in a UTF-16 pool decodes to the same string at the same cost to the budget |
| `ManifestStrings.AcceptedStringIsText` | cli/crates/android-emulator-adapter/src/apk.rs:613-694 | whatever bytes a pool holds, an accepted string is the UTF-8 encoding of a list of Unicode scalars |
| `ManifestStrings.Utf16Reads` | cli/crates/android-emulator-adapter/src/apk.rs:653-694 | UTF-16 text transcodes to the same text in UTF-8 |
| `ManifestStrings.Utf16IsText` | cli/crates/android-emulator-adapter/src/apk.rs:653-694 | nothing but UTF-16 text is transcoded |
| `ManifestStrings.Utf8Reads` | cli/crates/android-emulator-adapter/src/apk.rs:613-638 | UTF-8 text is well formed and counts its UTF-16 units |
| `ManifestStrings.Utf8IsText` | cli/crates/android-emulator-adapter/src/apk.rs:613-638 | nothing but UTF-8 text is well formed |
| `ManifestParser.ParseBinaryManifest` | cli/crates/android-emulator-adapter/src/apk.rs:232-361 | the chunk loop stays in range, terminates, and answers the facts of the manifest function |
| `ManifestParser.ValidateManifest` | cli/crates/android-emulator-adapter/src/apk.rs:40-53 | answers whether the manifest is valid, from the facts of the loop |
| `ManifestParser.ParseStringPool` | cli/crates/android-emulator-adapter/src/apk.rs:575-611 | the pool loop answers the pool function, budget shared over all strings |
| `ManifestParser.ParseStartElement` | cli/crates/android-emulator-adapter/src/apk.rs:470-543 | one start element and its attributes, by the element function |
| `ManifestParser.Transcode` | cli/crates/android-emulator-adapter/src/apk.rs:677-694 | the bounded transcoding loop answers the whole text, or nothing when a surrogate stands alone or the text exceeds what is left |
| `ManifestParser.DecodedStringBudget.Claim` | cli/crates/android-emulator-adapter/src/apk.rs:569-572 | takes the bytes from the budget exactly when they fit |

## Left out

- Noise, X25519, ChaCha20-Poly1305, SHA-256, key generation and zeroization: the
  channel is ideal, the transcript hash is chosen by whoever runs the handshake,
  and the digest is the byte stream handed to it.
- The Noise NK bootstrap exchange itself: only its M1, M2 and acknowledgement
  payloads and the transport it ends with are modelled.
- The supervisor's lease and bootstrap cores: what they answer is an input of the
  event, so the supervisor theorems hold for every answer. Its session cores are
  composed with it in `SupervisedSessions`; the peer's side is not.
- SupervisorTimers.EachTimerOneSlot: the tick slot is excepted once tokens are
  used up; `SupervisorGaps.TickSlotDiesExactly` says when it is dead.
- BytePair.BytesKeepTheSession: sealing and opening are any functions with
  opening undoing sealing on the frames sent, each of which makes one envelope.
- BundleIdentity.StreamIdentifiesTree: speaks of trees whose names hold no slash,
  as every directory of a file system has them.
- Time: deadlines are events that may arrive at any moment; milliseconds appear
  only as values that are announced.
- BundleAcceptance.AcceptedExactly: speaks of trees whose names hold no slash.
- OwnedOp.SoleWaitReturns: a condition variable is a step that may wake at any
  time; fairness of the scheduler and memory ordering weaker than sequential
  consistency are not modelled.
- OwnedOp as shared mutable objects: threads are steps of one world of values,
  so the Arc, Mutex and atomic types do not appear as classes.
- Coordinator as async code: an invocation is a value resumed with the answer
  of its last suspension, so its interleaving is explicit and its closures are
  answers.
- The cancellation of a Swift task in the middle of a capture, which leaves the
  snapshot store unchanged.
- The wrap-around trap of the snapshot generation counter at 2^64.
- JSON encoding of pages and snapshots: an abstract size.
- Payload checks of snapshot nodes, sources and coverage, and identifier
  patterns; only the structure of the node list is modelled.
- UIKit geometry, visibility, disclosure and native fields.
- Catalog registration, discovery permissions and revisions: the visible items
  and the catalog revision are given to each call.
- Extraction of the manifest from a ZIP archive, inflate and CRC.
- AppTree.Collector.CollectDirectory: links, devices, files with several names or
  a resource fork and entries that change while they are read are one kind of
  object the walk refuses; which check refuses them, the deadline and the
  cancellation of a walk are not modelled.
- Spooling and the Info.plist checks of an app bundle.
- Device orchestration through adb and simctl, the reservation ledger, sockets
  and the command line.
- 64-bit record and byte counters are unbounded numbers; the quotas keep them
  far from their width.
