# hcibridge: a verified model

hcibridge carries a Bluetooth controller over the network. A board (ESP32 firmware) owns the radio and pumps HCI packets
between its controller and one TCP client; a host daemon finds boards by UDP announces, proves that it holds a board's key,
and feeds the packets into a virtual HCI device. This project models the parts of it in which something can go wrong by
interleaving, chunking, replay, wrap-around or precedence, and proves what the system promises about them.

`dafny verify dfyconfig.toml` checks everything. The modules, bottom up:

- **Bytes**, **Text**: concatenated lists; splitting, trimming, letter case, decimal and hexadecimal numbers.
- **H4**, **Reassembler**: H4 framing (Bluetooth Core Specification Vol 4 Part A section 2, Part E sections 5.4.1 to 5.4.5),
  a one-shot parser, and the incremental reassembler over a caller-owned array, proved against it.
- **Bridge**, **BridgeInvariant**, **BridgeIntake**, **BridgeDelivery**, **BridgeTheorems**, **BridgeOffers**, **BridgeProgress**,
  **BridgeRefusal**, **BridgeClosing**, **BridgeRace**: the board's stream pump. The rx task, the tx task and the controller callback are a step machine with program counters; a schedule is
  any list of actions, with whatever the environment answers.
- **Session**, **Upstream**: the host's two pumps, and the end-to-end theorems in both directions.
- **MacLayout**, **MacParts**, **Handshake**, **HandshakeIo**: the MACed byte strings, the mutual handshake against an arbitrary network,
  and its byte-level reads and writes.
- **Device**, **BoardAuth**, **HexBuffers**, **Ota**: key life cycle and HTTP proofs across reboots, the firmware's globals and
  handlers as objects, hex buffers, and the update handler.
- **Manager**, **ManagerClaims**, **ActiveBoards**, **Discovery**, **Admission**: board sessions in every interleaving of the manager loop and the
  board threads, the map of boards and links as objects, the discovery datagrams, and the acceptance of an announce.
- **Config**, **Settings**, **Resolving**, **Schema**, **HostSugar**, **KeyFile**: the configuration reader, layered settings against
  a declarative specification, each setting by name, the command-line sugar, and the way of a key from `claim` to `lookupPsk`.
- **Timing**: the reply limiter and the controller wait in 32-bit milliseconds.

## Modelling choices

- Connections are fresh numbers, never reused. A write to the stream buffer is one step once the space check has passed, and
  there is one producer. A send on a connection that has been shut down or closed fails, and keeps failing.
- tx's read of `tx_pause` and its store to `tx_idle` are two steps, as in the code, so tx may stand between the two when rx lowers
  `tx_idle`. The delivery theorems hold in every schedule in which this happens only while no byte is queued or about to be
  (`Harmless`), and `OldByteIff` shows that this is the weakest such condition: at any other such step the call that is under way
  can damage the newcomer's stream. That tx is parked during the drain needs that it never happens (`Timely`), and `RaceIff` shows
  that this is exact as well. Everything else about the pump holds in every schedule: `FailureDropsItsOwn`, `ClosedWithoutSend`,
  `HandedIsParse`, `QueueIsOffered`, `ReceivedIsRead`, `WaitEnds`, `RefusedPeerLeavesNoTrace`, `NoConnectionForgotten` and
  `HostToController`.
- A peer's handshake is a state of rx of its own, of any duration, in which tx and the callback run on.
- Where a send has failed, the record of the wire stops; what the network delivers after that is not specified.
- The MAC is symbolic: a tag names its key and its bytes, and the network can only show tags that a key holder has made.
  SHA-256 and the header-level MAC are function parameters. X25519 is the derived key it yields.
- A flash, NVS, clock, poll, read or send outcome is an input of the step that meets it. Only an NVS commit persists.
- Mutex-protected sections of the host are single steps where no other lock is taken inside, and hold the lock across steps
  where one is (`Active.claim` and `Active.revokeMissing` around `Link.kill`).

## Where the code falls short of what it says

- The pause/idle handshake is described as preventing bytes of a previous host from reaching the next. `RaceTearsPacket` is a run
  from power-on in which one byte does. `OldByteIff` is the exact condition at the step in question: tx has read `tx_pause` and not
  yet stored `tx_idle`, and a byte is in the buffer or in a packet, not too large, that the callback holds. `RaceIff` is the exact condition for the weaker
  fault that rx drains beside a tx that is not parked.
- Proofs are described as good for one accepted request, which `NoProofTwice` proves. They are not used up by being checked:
  `AuthPassesAgainIff` and `PrePassesAgainIff` say exactly when they pass once more, on all three paths (an image that cannot be
  ended or switched to, a key that cannot be erased; for Pre also an upload that breaks off or whose Auth proof is wrong), and
  `ProofLifetime` says exactly how long they stay good over any run.
- `--host x` is the same as `--client x --no-discovery` exactly where an option may start (`HostSugarIff`).
- A saved key is found again exactly for the addresses the file format can carry (`KeyFileIff`).
- The host forwards packets larger than the board's storage; the board reports a protocol error exactly when the header of one has
  arrived (`HostToController`).
- A board claimed anew may be attached with its old key (`AdmittedWithStaleKey`); it is attached with the key it signed with exactly
  when that key is the one configured at the first look (`BoardAdmittedIff`).

## Model

| member | source | states |
|---|---|---|
| H4.TotalLenStable | common/h4.zig:85-95 | more bytes never change a length or an error that a header has already settled |
| H4.ParseResume | common/h4.zig:85-136 | the one-shot parser can be suspended at any byte and resumed: same packets, first error and residue |
| H4.ParseUnique | common/h4.zig:29-50 | every way of writing a stream as framed packets and an unfinished tail is the parser's way |
| H4.ParseSound | common/h4.zig:85-136 | the parser returns framed packets; packets and residue together are the bytes consumed |
| H4.ParsePrefix | common/h4.zig:97-125 | a prefix of a packet stream gives a prefix of the packets and no error |
| H4.EncodeLength | common/h4.zig:29-50 | the header of each of the five packet layouts announces the packet's own length, or that it does not fit |
| H4.FramedIsEncoded | common/h4.zig:29-50 | every framed byte string is the encoding of a well-formed packet |
| H4.EncodeInjective | common/h4.zig:29-50 | two packets with the same bytes are the same packet |
| H4.FramingRoundTrip | common/h4.zig:29-136 | any list of packets that fit comes back as exactly that list with an empty remainder |
| Reassembling.FeedParse | common/h4.zig:97-125 | one call cuts at most one packet off the front and leaves the rest of the stream to be parsed |
| Reassembling.Reassembler.constructor | common/h4.zig:74-77 | an empty reassembler over the caller's storage |
| Reassembling.Reassembler.Reset | common/h4.zig:79-81 | nothing pending afterwards |
| Reassembling.Reassembler.Feed | common/h4.zig:97-125 | the result and the buffer follow from all pending and new bytes together, in the success and both error cases |
| Reassembling.Reassembler.FeedAll | common/h4.zig:129-136 | packets, first error and residue of a chunk are those of the one-shot parser |
| Reassembling.Reassembler.FeedStream | common/h4.zig:97-136 | for every split of a stream into chunks the packets, first error and residue are those of the whole stream |
| BridgeInvariant.ParkingAccept | firmware/main/bridge.zig:189-206 | acceptClient keeps the pause/idle invariant |
| BridgeInvariant.ParkingTx | firmware/main/bridge.zig:243-252 | txTask keeps the pause/idle invariant |
| BridgeInvariant.FlowTx | firmware/main/bridge.zig:243-263 | taking and sending keep the account of every byte in the buffer, in tx's hands and on the wire |
| BridgeInvariant.FlowCb | firmware/main/bridge.zig:95-109 | queueing keeps that account |
| BridgeInvariant.FlowAccept | firmware/main/bridge.zig:178-207 | draining and publishing keep that account |
| BridgeIntake.FeedOnceParse | firmware/main/bridge.zig:158-167 | one round of rx's inner loop, in terms of the parse of everything received |
| BridgeTheorems.BaseExec | firmware/main/bridge.zig:130-222 | in every schedule: the slot, the intake and the buffer's room stay consistent |
| BridgeTheorems.InvExec | firmware/main/bridge.zig:95-265 | in every harmless schedule every byte of the stream is accounted for and every wire starts on a packet |
| BridgeTheorems.BlameExec | firmware/main/bridge.zig:189-263 | in every schedule tx is silent while rx changes hosts, and a reported failure is the client's own |
| BridgeTheorems.ParkingExec | firmware/main/bridge.zig:189-252 | in every timely schedule the pause/idle invariant holds |
| BridgeTheorems.ParkedWhileExclusive | firmware/main/bridge.zig:189-206 | from leaving the wait until clearing `tx_pause`, tx is parked with no chunk and no send in progress; the assumption is exact by `RaceIff` |
| BridgeTheorems.ClosedWithoutSend | firmware/main/bridge.zig:189-201 | in every schedule a replaced connection is closed with no send in progress |
| BridgeTheorems.WireIsPrefix | firmware/main/bridge.zig:199-263 | bytes sent on a connection, up to its first failed send, start on a packet boundary and are a prefix of the packets queued since its drain; the assumption is exact by `OldByteIff` |
| BridgeTheorems.NothingLost | firmware/main/bridge.zig:243-265 | sent, in hand and queued bytes are exactly the packets queued since the drain |
| BridgeTheorems.FailureDropsItsOwn | firmware/main/bridge.zig:150-150 | in every schedule a client dropped for a failed send is the client that send was for |
| BridgeTheorems.HandedIsParse | firmware/main/bridge.zig:149-168 | packets given to the controller are the parse of the bytes received on that connection alone |
| BridgeTheorems.PacketsEnterWhole | firmware/main/bridge.zig:95-109 | the space seen before the write is still there, so a packet enters whole |
| BridgeOffers.OfferEntersIff | firmware/main/bridge.zig:95-109 | in every schedule a packet offered with a client set enters the queue, whole, if and only if it fits beside the buffer's contents at its space check; without a client it does not |
| BridgeOffers.QueueIsOffered | firmware/main/bridge.zig:95-109 | in every schedule the queue record is exactly the list of packets so admitted, in order, and the buffer holds the unread end of their bytes |
| BridgeOffers.DeliveredWereOffered | firmware/main/bridge.zig:95-265 | end to end in the controller's terms: a host's packets are a prefix of the packets offered and admitted since its drain |
| BridgeProgress.ReceivedIsRead | firmware/main/bridge.zig:140-168 | in every schedule what counts as received is what the reads returned while the connection was the client, and the packets handed on are its parse |
| BridgeProgress.DropEmptiesSlot | firmware/main/bridge.zig:209-215 | dropClient, with anything going on beside it, empties the slot, closes the connection and goes on where it should |
| BridgeProgress.FailedSendIsReported | firmware/main/bridge.zig:259-263 | a send that fails is reported by tx's next step, whatever happens in between |
| BridgeProgress.SendGoesOn | firmware/main/glue.c:113-126 | a send that accepts bytes goes on with the rest and reports nothing |
| BridgeProgress.ReportedFailureEmptiesSlot | firmware/main/bridge.zig:150-150 | a reported failure costs the client its slot before rx receives again |
| BridgeProgress.EmptyReadEmptiesSlot | firmware/main/bridge.zig:153-157 | so does the end of the host's stream |
| BridgeProgress.BadPacketEmptiesSlot | firmware/main/bridge.zig:159-165 | so does a malformed packet, which also resets the reassembler |
| BridgeProgress.EvictedExec | firmware/main/bridge.zig:189-195 | in every schedule an evicted connection is shut down before rx waits, and tx sends only to the client or to closed connections |
| BridgeProgress.WaitEnds | firmware/main/bridge.zig:197-199 | in every schedule, wherever tx is when rx begins to wait, five of its steps later it is parked and rx goes on |
| BridgeRefusal.RefusedPeerIsInvisible | firmware/main/bridge.zig:178-187 | from accept to rejection, for every schedule in between, tx and the callback run as if rx stood still; client, reassembler, pause and all records stay as they were |
| BridgeRefusal.RefusedPeerLeavesNoTrace | firmware/main/bridge.zig:178-207 | in every schedule a refused peer is closed, never the client, and nothing was sent to it, received from it or handed on for it |
| BridgeTheorems.EndToEnd | firmware/main/bridge.zig:95-265 | what a host parses from any part of its connection is a prefix of the packets queued since the drain, without error |
| BridgeClosing.NoConnectionForgotten | firmware/main/bridge.zig:178-215 | in every schedule, when rx is back at its poll every connection ever accepted is the client or closed |
| BridgeRace.RaceIff | firmware/main/bridge.zig:197-199 | rx can drain beside a tx that is not parked if and only if tx stood between reading `tx_pause` and storing `tx_idle` when rx lowered it |
| BridgeRace.OldByteIff | firmware/main/bridge.zig:197-206 | a byte not queued for the newcomer can reach it in this call if and only if, besides, a byte is in the buffer or in a packet, not too large for it, that the callback holds |
| BridgeRace.RaceTearsPacket | firmware/main/bridge.zig:243-252 | a run from the initial state in which a new host receives a byte queued for the previous one |
| Session.PumpChunk | host/session.zig:119-133 | every complete packet of a filled read buffer is written in order, up to the first failed write or protocol error |
| Session.TcpToLocal | host/session.zig:112-135 | the same for the whole connection, however TCP cuts it |
| Session.FeedOnceIsFeed | firmware/main/bridge.zig:158-167 | the step machine's round is one call of the verified reassembler |
| Session.ReceiveFromBoard | host/session.zig:112-135 | packets written to vhci are a prefix of the packets queued after that connection's drain; never a protocol error |
| Upstream.LocalToTcp | host/session.zig:137-161 | the bytes sent are the packets of known type before the turn that ends the loop, in order, up to a failed write; and how the loop ends |
| Upstream.PacketsOf | host/session.zig:152-158 | each packet of known type is forwarded as often as it was read |
| Upstream.PrefixParses | common/h4.zig:85-125 | what the board parses from any part of a packet stream: the packets before the first oversized one, and an error exactly when its header has arrived |
| Upstream.HostToController | firmware/main/bridge.zig:149-168 | in every schedule the controller gets the forwarded packets in order up to the first oversized one, and there is an error exactly when its header has arrived |
| Upstream.TooLargeIff | common/h4.zig:85-95 | packets are taken up to the first that exceeds the storage, and there is an error exactly if there is one |
| MacLayout.Outside | common/auth.zig:50-56 | length, first and last byte of each kind of MACed message |
| MacLayout.AnnounceInjective | common/auth.zig:65-74 | the signed announce text determines address, port, name and source address, for any address and name without a tab |
| MacLayout.SameKind | common/auth.zig:97-113 | messages with the same bytes are of the same kind and, for HTTP proofs, for the same path |
| MacLayout.LayoutInjective | common/auth.zig:50-113 | all messages MACed under one board key are encoded injectively and pairwise disjoint |
| MacParts.FeedParts | common/auth.zig:28-34 | the MAC is over the pieces one after the other |
| MacParts.PartsAgree | firmware/main/auth.c:118-235 | host and firmware, written apart, feed the same pieces for every message |
| MacParts.LayoutIsParts | common/auth.zig:50-113 | and these are the bytes the rest of the model reasons about |
| Handshake.InvExec | host/handshake.zig:47-93 | in every run each proof on the network was made by the run that chose its nonce |
| Handshake.ClientAgreement | host/handshake.zig:47-66 | a client run that completes with (sn, cn) has exactly one board run that accepted (sn, cn) |
| Handshake.BoardAgreement | firmware/main/auth.c:118-144 | a board run that accepts has exactly one client run that chose cn, for this sn, after the board run began and before it accepted |
| Handshake.NoProofTwice | firmware/main/auth.c:118-144 | two board runs never accept with the same client nonce |
| Handshake.OneAnswerPerRun | firmware/main/auth.c:118-144 | a board run takes one answer, whatever it made of it |
| Handshake.OneFinishPerRun | host/handshake.zig:47-66 | and a client run one proof |
| Handshake.HonestRun | host/handshake.zig:47-93 | without interference both sides complete, from any state |
| HandshakeIo.ReadingIff | host/handshake.zig:28-40 | reading n bytes succeeds exactly when that many have been sent and arrive in time, and then takes exactly the next n |
| HandshakeIo.ShortReason | host/handshake.zig:28-40 | whether the deadline or the end of the stream is reported |
| HandshakeIo.ReadAllBy | host/handshake.zig:28-40 | fills the buffer with exactly the next bytes of the stream or stops short with the reason; never reads past it |
| HandshakeIo.ClientWith | host/handshake.zig:47-66 | the outcome in every case: which read stops short and why, a proof that cannot be sent, and the board's proof right or wrong; what has been read and written |
| HandshakeIo.BoardWith | firmware/main/auth.c:118-144 | the outcome in every case; its own proof goes out only after the client's has matched |
| Device.KeyStaysInStep | firmware/main/auth.c:60-72 | across every run, reboots included, a claimed board's RAM key is its stored key |
| Device.KeyLeavesByUnclaim | firmware/main/auth.c:239-299 | a key leaves the board only by an unclaim whose two proofs were made with that key for the current nonce |
| Device.KeyComesByClaim | firmware/main/auth.c:239-284 | a key gets onto the board only by a claim that derived exactly it, on a board that had none |
| Device.ClaimedKeyWorks | firmware/main/auth.c:239-284 | after such a claim, until an unclaim proved with it, the key is the stored and the RAM key through every run, and requests proved with it pass |
| Device.InvExec | firmware/main/auth.c:180-235 | every accepted request stands at its own boot and count |
| Device.NonceIff | firmware/main/auth.c:180-187 | nonces are equal exactly for the same boot random and counts equal modulo 2^32 |
| Device.SameProofSameNonce | firmware/main/auth.c:217-235 | a proof fits one nonce |
| Device.NoProofTwice | firmware/main/ota.c:131-195 | over every run of requests with any fate, claims, unclaims and reboots no proof is accepted twice |
| Device.AuthPassesAgainIff | firmware/main/ota.c:131-195 | a request whose Auth proof passed passes again exactly when something failed after the check |
| Device.PrePassesAgainIff | firmware/main/ota.c:65-195 | a Pre proof that passed passes again exactly when its request was not accepted |
| Device.ProofLifetime | firmware/main/auth.c:180-235 | over every run, proofs that pass now pass at its end exactly when nothing was accepted and nothing rebooted in between |
| Device.AcceptedWasSaid | firmware/main/auth.c:217-235 | an accepted request's proofs were made by a key holder for that path, nonce, digest and length |
| Device.UnclaimedPassesNothing | firmware/main/auth.c:206-215 | an unclaimed board passes no proof and no header |
| Device.HeaderIff | firmware/main/auth.c:206-215 | a header is accepted exactly when it is the hex of the right MAC, in any letter case |
| Device.HonestRequestAccepted | common/auth.zig:97-131 | with the key and the published nonce both headers are accepted, through the hex round trip |
| BoardAuth.AuthState.AuthInit | firmware/main/auth.c:60-72 | the state after a boot |
| BoardAuth.AuthState.NonceBump | firmware/main/auth.c:201-204 | advances the counter modulo 2^32 and nothing else |
| BoardAuth.AuthState.CheckHttp | firmware/main/auth.c:217-225 | accepts exactly the Auth proof for path, nonce and digest under the key of a claimed board |
| BoardAuth.AuthState.CheckHttpPre | firmware/main/auth.c:227-235 | accepts exactly the Pre proof for path, nonce and length |
| BoardAuth.AuthState.AuthClaim | firmware/main/auth.c:239-284 | succeeds exactly on an unclaimed board with a derived key and a commit; then that key is in RAM and in NVS; the state in every other case |
| BoardAuth.AuthState.AuthUnclaim | firmware/main/auth.c:286-299 | succeeds exactly with a commit; otherwise the key stays |
| BoardAuth.AuthState.RebootPost | firmware/main/ota.c:157-173 | one step of the life cycle, accepted exactly with both proofs |
| BoardAuth.AuthState.UnclaimPost | firmware/main/ota.c:177-195 | one step of the life cycle |
| BoardAuth.AuthState.ClaimPost | firmware/main/ota.c:199-230 | succeeds exactly on an unclaimed board with 64 hex characters, a derived key and a commit; the new state in every case |
| HexBuffers.CDigitIsHexValue | firmware/main/auth.c:89-99 | the bit trick on a signed char accepts exactly the hex digits of both cases |
| HexBuffers.Hexlify | firmware/main/auth.c:79-87 | the buffer holds the lower-case hex and a terminator |
| HexBuffers.UnhexInto | firmware/main/auth.c:89-99 | succeeds exactly when all characters are digits, and then the buffer holds what they spell |
| Text.UnhexIff | common/auth.zig:144-149 | hex text reads as some bytes exactly when its lower-case form is their printing |
| Text.HexRoundTrip | common/auth.zig:144-153 | printing and reading gives the bytes back |
| Ota.CompleteHasBody | firmware/main/ota.c:96-126 | the receive loop cannot complete on a body shorter than announced |
| Ota.LivelyUploadCompletes | firmware/main/ota.c:96-126 | the loop completes when there are never six timeouts in a row |
| Ota.RoundTakes | firmware/main/ota.c:101-102 | one round asks for what is missing, at most 1024 bytes, and writes what comes |
| Ota.StalledUploadStops | firmware/main/ota.c:103-109 | six timeouts in a row end the upload |
| Ota.FailedWriteStops | firmware/main/ota.c:118-124 | so does a write that fails |
| Ota.FailedWriteAborts | firmware/main/ota.c:118-124 | in a well-used trace a failed write is the last one, followed by the abort, with no end or switch |
| Ota.Uploader.ReceiveImage | firmware/main/ota.c:96-126 | what reaches flash is the body in order, with the result of every write on record; on success all of it, otherwise an abort right after what failed |
| Ota.Uploader.OtaPost | firmware/main/ota.c:65-155 | one step of the life cycle with the upload's fate; the recorded results are those of the flash; the boot partition is switched exactly if the request is accepted, with the whole body written and hashed to the proved digest; every handle is closed once; nothing is opened before the Pre proof passed |
| Manager.InvExec | host/manager.zig:84-165 | every step of the loop and of the threads keeps the session invariant |
| Manager.OneSessionPerBoard | host/manager.zig:94-106 | in every run at most one live session per address |
| Manager.EntriesExist | host/manager.zig:84-125 | in every run each map entry is for a context that has not been destroyed |
| Manager.DestroyedOnce | host/manager.zig:146-165 | no context is destroyed twice or used after it is destroyed |
| Manager.NoContextLeaks | host/manager.zig:289-320 | each context ever created either exists or has been destroyed exactly once |
| Manager.NeverShutAfterClose | host/board.zig:13-64 | `Link.kill` never shuts down a stream that `run` has closed |
| Manager.LinkedWhilePumping | host/board.zig:32-64 | in every run the link is set exactly while the thread pumps, and never to a closed stream |
| Manager.ClaimedThroughBackoff | host/manager.zig:146-165 | in every run a board stays in the map from the start of its thread through the back-off |
| Manager.SleepsBeforeRelease | host/manager.zig:161-164 | in every run a thread sleeps between its session and giving its board up |
| ManagerClaims.NewAddressCutsLink | host/manager.zig:94-106 | in every run an announce for a board in the map from another address ends with the old stream shut down, unless its thread has given it up |
| ManagerClaims.SameAddressSparesLinks | host/manager.zig:94-106 | in every run an announce for a new board, or for one at the same address, shuts nothing down |
| ManagerClaims.NewBoardIsAttached | host/manager.zig:289-320 | in every run an announce for a board not in the map ends with it in the map and its thread started, if memory and threads are to be had |
| Manager.RevocationIsComplete | host/manager.zig:115-124 | over a whole revocation, with the threads running, the map stays as it is and every board in it without a key whose link stays set has its stream shut down |
| Manager.RevocationSparesOthers | host/manager.zig:115-124 | a stream that a revocation shuts down belongs to a board of the map without a key |
| ActiveBoards.Link.Set | host/board.zig:23-27 | publishes or withdraws the stream |
| ActiveBoards.Link.Kill | host/board.zig:17-21 | shuts down the link's stream if it is set, and nothing else |
| ActiveBoards.Active.Claim | host/manager.zig:94-106 | true exactly for a board not in the map; only a board back from another address loses its link |
| ActiveBoards.Active.Release | host/manager.zig:108-112 | removes the board and nothing else |
| ActiveBoards.Active.RevokeMissing | host/manager.zig:115-124 | shuts down exactly the live links of boards without a valid key |
| Discovery.AnnounceRoundTripIff | common/discovery.zig:42-69 | an announce comes back as built exactly when the address has 17 characters, the name is not empty and no field holds a tab |
| Discovery.BuildAnnounceIff | common/discovery.zig:42-44 | building fails exactly when the line is longer than the buffer |
| Discovery.ParseIffGrammar | common/discovery.zig:46-69 | the parser accepts exactly the five- and six-field lines of the grammar |
| Discovery.ParseErrors | common/discovery.zig:46-57 | which lines are probes, have the wrong magic word or an unknown kind, read off their first characters |
| Discovery.BoardAnnounceParses | firmware/main/glue.c:274-321 | every announce of the firmware, signed or not, parses to what the board meant |
| Discovery.BoardAnnounceFitsIff | firmware/main/glue.c:277-321 | for which names a signed announce is complete in the firmware's buffer, and then fits the host's |
| Admission.AdmitIff | host/manager.zig:242-307 | exactly which lines of the announce grammar, from which sources, attach which board with which key |
| Admission.ReplayAdmitsNothingElse | host/manager.zig:242-287 | an announce signed for one address, port, name and source admits nothing else |
| Admission.HonestBoardAdmitted | host/manager.zig:242-307 | a board whose key is held is admitted with everything it announced |
| Admission.AdmittedWithStaleKey | host/manager.zig:274-307 | a board found only by the second look at the configuration is admitted with the key of the first |
| Admission.BoardAdmittedIff | host/manager.zig:242-307 | a board's datagram signed with k is admitted with the configured key p if and only if p is k or a second look finds k; so with k exactly when k is configured at the first look |
| Admission.ClaimThenAttach | host/cli.zig:546-552 | after `claim` has saved a key, the board's next announce is admitted with it |
| Config.StripFrom | host/config.zig:82-88 | the line up to its first comment, and no further |
| Config.CommentIsCut | host/config.zig:82-88 | a number sign or semicolon at the start of a line or after a blank cuts the line off |
| Config.NoCommentNoCut | host/config.zig:82-88 | elsewhere it is part of the line |
| Config.ReadLineIff | host/config.zig:62-77 | a line gives a pair exactly when, up to its first comment, it is that key and value around an equals sign with padding; every other line gives nothing |
| Config.ReadTextAcrossLineEnd | host/config.zig:58-78 | reading a file is reading its pieces cut at any line end |
| Config.Raw.ApplyTextFrom | host/config.zig:58-78 | appends the pairs of the text in order, skipping blank lines, lines without '=' and empty keys |
| Settings.LastSomeIs | host/settings.zig:115-234 | what "the last valid value" means |
| Resolving.LaterOverEarlier | host/settings.zig:195-233 | resolving two lists of layers is laying the later over the result of the earlier, for every field |
| Resolving.Precedence | host/settings.zig:115-234 | flags over environment over configuration over defaults; the error cases of the command line |
| Resolving.ApplyLayers | host/settings.zig:195-233 | each scalar is the last value that parses, else what it was; each list is extended in order |
| Resolving.CollectConf | host/settings.zig:131-138 | the layers of the known keys, in order |
| Resolving.CollectEnv | host/settings.zig:139-154 | the layers of the environment in schema order, lists split at commas |
| Resolving.CollectFlags | host/settings.zig:155-193 | the layers of the command line, or its first error |
| Resolving.Resolve | host/settings.zig:115-234 | the declarative specification |
| Schema.Defaults | host/settings.zig:43-56 | the defaults without any source |
| Schema.DiscoverySetting | host/settings.zig:30-30 | what discovery is set to by its key, its variable, its flag with and without a word, and `--no-discovery` |
| Schema.BoolWords | host/settings.zig:105-111 | the words for on and off |
| Schema.BindSetting | host/settings.zig:31-31 | the bind address by key, variable and flag |
| Schema.SubnetSetting | host/settings.zig:32-32 | the subnet by key, variable and flag |
| Schema.DiscoveryPortSetting | host/settings.zig:33-33 | the discovery port by key, variable and flag; unreadable values are ignored |
| Schema.PortSetting | host/settings.zig:34-34 | the TCP port by key, variable and flag |
| Schema.VhciSetting | host/settings.zig:35-35 | the device by key, variable and flag |
| Schema.ReconnectSetting | host/settings.zig:36-36 | the reconnect delay by key, variable and flag |
| Schema.ClientsSetting | host/settings.zig:37-37 | clients by key and flag, and a comma-separated list by variable |
| Schema.AllowSetting | host/settings.zig:38-38 | the allow list likewise |
| Schema.DenySetting | host/settings.zig:39-39 | the deny list likewise |
| Schema.PskSetting | host/settings.zig:40-40 | the key entries likewise |
| Schema.BlankItem | host/settings.zig:145-148 | blank places in a list variable give nothing |
| Schema.OnceSetting | host/settings.zig:159-162 | `--once` |
| Schema.LoneArgument | host/settings.zig:155-193 | what an argument on its own sets, that its value is missing, or that there is no such argument |
| HostSugar.HostSugarIff | host/settings.zig:163-174 | the sugar law holds at a place, for all boards and all later arguments, exactly when no earlier option there waits for a value |
| HostSugar.SugarMidOption | host/settings.zig:163-193 | a board name and rest for which it fails at every other place |
| KeyFile.LookupConcat | host/settings.zig:65-76 | lookup over two lists is lookup in the later, else in the earlier |
| KeyFile.LookupPsk | host/settings.zig:65-76 | the backward scan finds the last valid entry for the board in any letter case |
| KeyFile.KeyFileIff | host/cli.zig:546-552 | the saved line gives the key back exactly for the addresses the format can carry |
| KeyFile.KeyFileRoundTrip | host/settings.zig:65-234 | through file, resolving and lookup, in any letter case, whatever else is configured before |
| Timing.ReplyLimiter.OnProbe | firmware/main/glue.c:332-340 | one probe: whether it is answered and the new window |
| Timing.ReplyLimiter.AnswerAll | firmware/main/glue.c:310-341 | a run of probes |
| Timing.TenRepliesPerSecond | firmware/main/glue.c:307-341 | any 1000 ms hold at most ten replies, across wrap-arounds |
| Timing.TenIsReached | firmware/main/glue.c:307-341 | and ten are possible |
| Timing.AnsweredAfterSilence | firmware/main/glue.c:332-340 | after a second without probes the next five at once are answered, across wrap-arounds |
| Timing.SixthIsNotAnswered | firmware/main/glue.c:332-340 | and the sixth is not |
| Timing.ExpiredIff | firmware/main/bridge.zig:226-229 | the wrapped comparison is right until half a turn of the counter after the deadline |
| Timing.SendToController | firmware/main/bridge.zig:224-237 | a packet is dropped only after 5000 ms of waiting, and with clock readings less than 2^31 ms apart at the first reading after that |

## Left out

- Update in place between the three bridge actors and between the manager's threads: their interleaving is modelled on values, one
  state record per step, because Dafny has no concurrent objects; single calls are modelled on objects where the source has them.
- Descriptor numbers: `dropClient` closes without parking tx, so a number may be reused while tx still holds it; connections here are
  fresh ids, and nothing is claimed about tx never holding a closed descriptor.
- BridgeTheorems.WireIsPrefix: assumes `Harmless`, because the property is false of the code exactly without it (`OldByteIff`).
- BridgeTheorems.InvExec: assumes `Harmless` for the same reason.
- BridgeTheorems.NothingLost: assumes `Harmless` for the same reason.
- BridgeTheorems.EndToEnd: assumes `Harmless` for the same reason, and that the controller hands over framed packets.
- Session.ReceiveFromBoard: assumes the same as `EndToEnd`.
- BridgeTheorems.ParkedWhileExclusive: assumes `Timely`, because the property is false of the code exactly without it (`RaceIff`).
- Reassembling.Reassembler.FeedAll: the handler does not fail; `Session.PumpChunk` is the same loop with a write that may.
- Discovery.BoardAnnounceParses: is about the whole line; for names beyond `BoardAnnounceFitsIff` the firmware's buffer cuts it off, and
  what is then sent is not modelled.
- Admission.HonestBoardAdmitted: likewise for names that fit the firmware's buffer only.
- Device.NoProofTwice: assumes that boot randoms do not repeat and that fewer than 2^32 requests are accepted per boot; `NonceIff`
  shows why both are needed.
- Timing.TenRepliesPerSecond: a span is 1000 consecutive millisecond values.
- The restart at the end of `ota_post` and `reboot_post` may come arbitrarily late in the model, so the proofs rest on the counter alone.
- Revocation during a handshake: the link is not published yet at that point, so it is not covered.
- The two-second limit on configuration reloads, the set of boards already warned about, and the subnet parser: the reload's result and
  the subnet test are parameters.
- The 128-byte buffer for the saved line: the round trip is stated for every address, also those the buffer would refuse.
- HMAC, SHA-256, X25519, constant-time comparison and random generation; ESP-IDF, FreeRTOS, lwIP, mbedTLS and bootloader internals.
- The `sscanf` reading of the claim body, watchdog timing, packet counters and logging.
- Session start and stop (`Session.run`, `first_error`), socket options, and the rollback timer after an update.
- WiFi portal, Ethernet setup, HTTP client, release downloads, help, man page and completion generators, simulator, packaging and the web
  page: input, output and user interface only.
