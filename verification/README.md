# udp2raw-rust in Dafny

A model of the stateful and algebraic core of udp2raw-rust, a UDP-over-raw-socket tunnel, and proofs of what that
core is for. `dafny verify dfyconfig.toml` checks the whole project.

How the pieces fit:

- **Relay endpoint** (`Relay`, `Candidates`, `Ledger*`, `Text`, `Endpoint*`, `Fleet`): the controller that resolves,
  switches, commits and rolls back relay addresses, and the durable ledger that limits blind probes of old addresses.
  The resolver, both clocks, the jitter and the ledger's verdicts are inputs of each step; the ledger file is one
  atomic durable cell whose writes may be lost, kept despite an error, or cut off by a crash. `Fleet` runs any number
  of controllers with one configuration over one ledger, with every locked section a step of its own.
- **Kernel resources** (`Resources`, `ResourceRuns`, `ResourceObject`): what the client believes about its routes and
  firewall rules against what the kernel really holds. A failed add installs nothing; a failed delete may or may not
  have worked; a query answers truthfully or not at all.
- **Crypto pipeline** (`Pipeline`, `PipelineRoom`, `PipelineObject`): workers, bounded queues, round-robin dispatch and collection as a
  transition system over every interleaving, worker deaths included.
- **Connection protocol** (`AntiReplay`, `Server*`, `Session*`, `Conv*`): replay window, server tables, and the run of one
  server, any number of clients and a network that loses, duplicates, reorders and misdelivers.
- **Crypto and packets** (`GaloisField`, `Generator`, `Aes*`, `BlockModes`, `PacketCrypto`, `Gro`, `Safer`,
  `WireFormat`, `CryptoObject`, `Checksum`, `Headers`, `Tcp`, `HeaderBytes`, `PacketBuffers`): table-driven AES down to the
  generated tables and a known answer, cipher modes, the two-role composition, burst splitting, checksums and headers.
- **Arithmetic** (`Machine`, `Arith`): fixed-width types, saturation, products and remainders.

Code that updates fields or buffers is a class or a method over arrays (`*Object`, `AesGen`, `Checksum`,
`PacketBuffers`, `AntiReplay`); each such method is proved equal to a function on values, and the theorems are about
those functions and their runs. A step over an event that is not enabled does nothing.

Safety theorems say what never happens; the modules `LedgerSupply`, `EndpointExact`, `PipelineRoom`, `ServerRecovery`,
`SessionLiveness`, `AesVector`, `WireFormat`, `HeaderBytes` and `LedgerFormat` say what must happen, in terms that do not
mention how it is computed.

Three facts the proofs bring out:

- The first charge of a new ledger key is granted without looking at the attempt limit, so the cap of a key is
  `max(1, max_attempts)` (`LedgerRuns.KeyCap`).
- A TCP segment with a data offset of one to four words makes the parser slice from byte 20 to an earlier byte;
  `Tcp.FaultsIff` gives the exact condition. Segments that the builder makes never meet it.
- A window that starts over refuses number 0, so a connection whose first heartbeat has that number (a drawn seed below 10)
  leaves its client waiting for the next heartbeat (`SessionLiveness.FirstTime`, `SessionLiveness.NextBeat`).

## Model

| member | source | states |
|---|---|---|
| `Ledger.PrechargeFallbackState` | src/endpoint.rs:1186-1243 | the refill-check-charge procedure on a document returns exactly the charged document, or refuses and leaves it alone |
| `Ledger.PrechargeEffect` | src/endpoint.rs:1186-1243 | a charge is granted if and only if a token is there after refill, the key is under its attempt cap and past its cooldown (or a slot is free for it); granted, it takes one token, touches one key, evicts nothing and keeps keys unique and entries sorted by use |
| `LedgerSupply.RefillMints` | src/endpoint.rs:1193-1204 | k whole intervals after the last refill the bucket holds min(capacity, tokens + k) tokens and has accounted for exactly those k intervals |
| `LedgerSupply.ChargeIsGranted` | src/endpoint.rs:864-909 | from any acceptable document a written charge is granted if and only if min(capacity, tokens + intervals elapsed) is not 0 and the key is open; it is then logged and told, leaves one token less, and the table holds that key with one more charge, the cooldown from now and this use, all other entries as they were, most recent use first; otherwise nothing changes |
| `LedgerSupply.FirstCharge` | src/endpoint.rs:876-890 | without a document the first charge is granted from a full bucket |
| `LedgerSupply.TokensAreConserved` | src/endpoint.rs:1193-1204 | over every run charges, tokens left and what the capacity cut off add up exactly to the initial tokens plus one per refill interval, and no interval that had passed at the latest charge is left out |
| `LedgerRuns.ProbeBudget` | src/endpoint.rs:864-909 | over any number of processes, interleavings of locked sections, crashes, writes that are lost or kept despite an error, and a clock that may go back: durable charges are at most the initial tokens plus one per refill interval up to the latest wall time seen |
| `LedgerRuns.KeyCap` | src/endpoint.rs:1206-1232 | no (candidate, DNS set) key is ever charged more than its cap in a whole run |
| `LedgerRuns.CooldownSpacing` | src/endpoint.rs:1206-1232 | charges of one key are at least the cooldown apart, even when the wall clock goes backwards in between |
| `LedgerRuns.LifetimeBudget` | src/endpoint.rs:1206-1243 | from an empty ledger the charges of all time are at most 16 times the attempt cap, because entries are never evicted |
| `LedgerRuns.GrantsAreDurable` | src/endpoint.rs:864-909 | every grant a process acts on has its own durable charge |
| `LedgerRuns.BucketStep` | src/endpoint.rs:1186-1204 | one step of any process keeps charges plus tokens within the refill since the first fill |
| `Fleet.FleetBudget` | src/endpoint.rs:864-1183 | the blind returns of a whole fleet of controllers, started, stopped and crashed in any order over one shared ledger, their locked sections interleaved one by one, plus the charges granted and not used yet, stay within the durable charges and hence within the token and lifetime bounds |
| `Fleet.FleetDocuments` | src/endpoint.rs:864-909 | over every behaviour of the fleet from an absent or sound document, whatever was granted, refused, lost in a write error or cut short by a crash: the document on disk fits in 16 KiB and reloads to itself at any clock no more than 300 s behind |
| `Fleet.FleetStaysUsable` | src/endpoint.rs:417-442 | a process stops probing only after a failed lock, read or write or with a clock more than 300 s behind; nothing the fleet itself writes ever disables it |
| `LedgerText.SerializeFallbackState` | src/endpoint.rs:1351-1364 | the loop that writes the document produces the specified text |
| `LedgerText.LoadExact` | src/endpoint.rs:1366-1448 | a text loads to a state if and only if it is the serialisation of that state and the state passes every check of the loader at that clock; both the round trip and the rejection of everything else |
| `LedgerText.DocumentFits` | src/endpoint.rs:1351-1364 | every serialised document of at most 16 keyed entries fits in 16 KiB |
| `LedgerText.EntryExact` | src/endpoint.rs:1401-1437 | an entry line parses to an entry if and only if it is that entry's own line |
| `LedgerFormat.DocumentText` | src/endpoint.rs:1351-1364 | the document of any state, written out line by line |
| `LedgerFormat.SampleAddresses` | src/endpoint.rs:1358-1361 | addresses are written most significant octet first, in decimal |
| `LedgerDocuments.DocumentsReload` | src/endpoint.rs:864-909 | in every run of sections that charge loadable keys the document fits, is accepted by the loader at any clock no more than 300 s behind, and loads back as the same state |
| `LedgerDocuments.NoneDisabled` | src/endpoint.rs:864-909 | such a run disables no process without an I/O failure or a lagging clock |
| `EndpointRuns.RequestsAreLoadable` | src/endpoint.rs:864-909 | every request any run makes of the ledger, granted, refused or failed, is for a safe address against a canonical, safe, non-empty answer of at most eight addresses, comes from a controller that may still probe, and probing ends exactly when one fails |
| `Text.ParseIpExact` | src/endpoint.rs:1450-1458 | a string parses as an address exactly when it is its dotted form |
| `Text.SplitJoin` | src/endpoint.rs:1366-1394 | splitting what was joined gives the parts back |
| `Candidates.CanonicalOrderFree` | src/endpoint.rs:847-853 | the canonical candidate set depends only on which addresses are in the list, not on their order or multiplicity |
| `Candidates.CanonicalShape` | src/endpoint.rs:847-853 | it is strictly increasing, has the same members and is capped at eight |
| `Candidates.CanonicalLowest` | src/endpoint.rs:847-853 | what the cap of eight leaves out is larger than everything kept |
| `Candidates.OrderedKeeps` | src/endpoint.rs:1003-1021 | ordering the candidates around current and committed-good keeps exactly the same addresses |
| `Candidates.OrderedRanks` | src/endpoint.rs:1003-1021 | the order is: current address, committed-good, then by number |
| `EndpointRuns.ApplyStep` | src/endpoint.rs:512-1183 | every operation of the controller keeps its invariant, moves only into the DNS answer or back to committed-good, never to where it already is, and covers what it spends |
| `EndpointRuns.BootstrapKeeps` | src/endpoint.rs:353-464 | start-up establishes the invariant whichever of DNS, cache and bootstrap address supplied the first address |
| `EndpointRuns.RunKeeps` | src/endpoint.rs:512-1183 | the invariant holds after every run |
| `EndpointRuns.BlindReturnsArePaid` | src/endpoint.rs:512-584 | in every run, switches out of the DNS answer other than free attended returns, plus an unused rollback authorisation, never exceed the charges granted |
| `EndpointRuns.DirectReturnsAreCommanded` | src/endpoint.rs:591-604 | in every run the free returns, plus the attended authorities still held, never exceed the operator commands that interrupted an authenticated committed-good |
| `EndpointRuns.BlindGoesHome` | src/endpoint.rs:1023-1183 | a switch to an address outside the current DNS answer goes to committed-good and does not change it |
| `EndpointCommit.CommitSafety` | src/endpoint.rs:662-779 | with fallback enabled a set committed-good is replaced only by an operator's promotion of the active authenticated candidate, after at least 3 DATA packets since its latest authentication, no gap over min(probation, 5 s), a span of at least the probation, the last one still recent |
| `EndpointCommit.OnlyPromotionCommits` | src/endpoint.rs:743-779 | any step that changes a set committed-good is a granted promotion of the current address |
| `EndpointCommit.PromotionExact` | src/endpoint.rs:743-779 | over every run, a promotion command commits the candidate if and only if the cache was saved, it is the authenticated address in use away from committed-good, the traffic since the last gap is sustained, and no scheduled rollback has come due or lost its target; otherwise it changes nothing |
| `EndpointCommit.AnySustainedStretch` | src/endpoint.rs:723-741 | with a clock that does not go back, any sustained unbroken suffix of the traffic makes the stretch since the last gap sustained |
| `EndpointExact.FreshIff` | src/endpoint.rs:814-834 | committed-good is a rollback target if and only if the policy is on, it is not in use, and it was active within the window or its cached age still counts |
| `EndpointExact.ActivityCounts` | src/endpoint.rs:723-727 | a packet on committed-good keeps it fresh for a whole rollback window |
| `EndpointExact.CacheCounts` | src/endpoint.rs:804-812 | a cached address counts for exactly its remaining age |
| `EndpointExact.RollbackIsLatest` | src/endpoint.rs:684-695 | a rollback is scheduled if and only if committed-good stays fresh, and the window lasts, past the probation plus two timer intervals; and then two timer intervals before the last instant at which both hold |
| `EndpointExact.AuthenticationExact` | src/endpoint.rs:662-721 | authentication ends the round and reopens the resolver; it commits the address when nothing is to be protected, and otherwise starts a probation and leaves committed-good alone |
| `EndpointExact.QueriedIff` | src/endpoint.rs:622-650 | a cycle asks the resolver if and only if it was told to, a lost session waits, there is no answer or it has expired, and the backoff is over |
| `EndpointExact.CommandAsks` | src/endpoint.rs:592-604 | after the operator's command the next cycle always asks, and the authority is there exactly if committed-good was authenticated |
| `EndpointExact.AnswerTaken` | src/endpoint.rs:913-995 | an answer with a safe address replaces the candidates by its lowest eight safe ones in order of preference, holds for its time to live, ends the backoff, and restarts the counts only if the set changed |
| `EndpointExact.NoAnswerKept` | src/endpoint.rs:940-995 | anything else changes nothing but the backoff |
| `EndpointExact.DelayDoubles` | src/endpoint.rs:208-217 | the delay doubles with every failure up to the maximum, give or take a quarter, and never falls below the minimum |
| `EndpointExact.DelaySteps` | src/endpoint.rs:208-217 | the first delay is the minimum, each further failure doubles it until the maximum, twenty times at most |
| `EndpointExact.JitterSpreads` | src/endpoint.rs:208-217 | the random word spreads the delay over half its size |
| `EndpointExact.BackoffStarts` | src/endpoint.rs:190-197 | a new backoff is open, with a minimum of at least 1 ms and a maximum of at least the minimum |
| `EndpointExact.ReturnExact` | src/endpoint.rs:1093-1104 | a failed probation returns if and only if committed-good is fresh and the operator's authority or a granted charge covers it; the ledger is asked only when needed |
| `EndpointExact.SessionLostExact` | src/endpoint.rs:1161-1181 | a lost session moves only off a committed-good the answer no longer lists, and then to the lowest listed address |
| `EndpointExact.ForcedExact` | src/endpoint.rs:1051-1091 | a Forced cycle moves to the preferred answer if and only if there is another one, the round has not run out, and leaving committed-good would leave a way back |
| `EndpointExact.ForcedNeedsAnswer` | src/endpoint.rs:1057-1064 | without a fresh usable answer of its own a Forced cycle moves nowhere and the authority ends |
| `EndpointExact.ProbeExact` | src/endpoint.rs:1137-1146 | a probe of committed-good is asked for exactly when it is fresh and the round has run out or both counts suffice |
| `EndpointExact.PreferredExact` | src/endpoint.rs:1133-1159 | one failed attempt is counted once and leads home on a granted probe, ends a round that has run out, or goes on to the next candidate |
| `EndpointExact.CommittedExact` | src/endpoint.rs:1117-1132 | a failed attempt on committed-good goes on to the next candidate within its round, or ends a round that has run out |
| `EndpointExact.LostWaits` | src/endpoint.rs:622-650 | a lost session leaves the resolver to be asked until something authenticates; a query uses up the command that caused it |
| `EndpointExact.TakenExact` | src/endpoint.rs:1040-1050 | an authorised rollback is taken and ends the probation; nothing happens without authorisation |
| `EndpointExact.GapIs` | src/endpoint.rs:733 | traffic is unbroken while no gap exceeds the smaller of five seconds and the probation |
| `EndpointExact.RollbackExact` | src/endpoint.rs:512-548 | the timer authorises a rollback if and only if it is due, its target is fresh, and it is authorised already, direct, or granted |
| `EndpointExact.OperatorExact` | src/endpoint.rs:554-584 | the operator's command authorises a rollback under the same conditions without waiting for the instant |
| `EndpointExact.BootstrapExact` | src/endpoint.rs:386-464 | start-up picks the cached address if listed, else the lowest listed one, else the cached, else the configured one, and refuses an unsafe configured one |
| `EndpointExact.BootstrapState` | src/endpoint.rs:353-464 | a new controller has nothing authenticated, on probation or counted, a round that begins now, and probes disabled exactly when the ledger is in use and could not be loaded |
| `EndpointCutover.WayBack` | src/endpoint.rs:1066-1086 | an attended cutover that leaves committed-good and authenticates in time schedules a rollback no earlier than the end of probation, and through any further events that commit nothing committed-good stays eligible until two timer intervals after it |
| `EndpointCutover.AttendedRollback` | src/endpoint.rs:512-548 | the whole cutover as one run: the probation is direct exactly when the operator's authority lasted until authentication, only a reconnect cycle ends it, and while it goes on, at every instant from the rollback instant to two timer intervals later, the timer authorises the return without asking the ledger and the next cycle is back on the address that was left |
| `EndpointCutover.CutoverChecked` | src/endpoint.rs:1066-1086 | a Forced cycle leaves committed-good only with a health deadline that covers the whole round, a handshake, the probation and the grace |
| `EndpointQueries.QuerySpacing` | src/endpoint.rs:913-995 | in any run segment that starts with a cycle and has no later authentication, operator refresh or lost session, resolver calls are at least min(backoff minimum, 10 s) apart, for every jitter and every mix of errors, unusable and stale answers |
| `EndpointQueries.QueriesAreRare` | src/endpoint.rs:447-464 | from start-up on, its own resolver call included, through any events: calls closer together than that number at most one per authentication, operator command or lost session |
| `EndpointQueries.QueryRate` | src/endpoint.rs:189-232 | hence time T holds at most 1 + T/spacing queries |
| `EndpointRecovery.RecoveryIsBounded` | src/endpoint.rs:1133-1159 | with the fallback policy on, a fresh committed-good and a ledger that grants, during a resolver outage the controller is back at committed-good after at most max(after_failures, number of candidates, 1) failed attempts |
| `EndpointRecovery.EveryCandidateIsTried` | src/endpoint.rs:855-862 | without the fallback policy, during a resolver outage, n failed attempts try every one of the n candidates, also when the current address is no candidate any more |
| `EndpointRecovery.NeverPinned` | src/endpoint.rs:1133-1159 | with or without the policy, in any round, on probation or not, and whatever the ledger answers: during a resolver outage 2 n failed attempts try every one of the n candidates, unless one is answered by a return to committed-good that the ledger grants |
| `EndpointRecovery.FailureCounts` | src/endpoint.rs:1092-1159 | a failed attempt either leads back to committed-good or is counted exactly once on both counters, and when the counters suffice it leads back at the price of one charge |
| `EndpointObject.EndpointController.OnCycle` | src/endpoint.rs:622-655 | the method that refreshes and selects, on its fields, does exactly one cycle of the value model |
| `EndpointObject.EndpointController.Query` | src/endpoint.rs:913-995 | resolver answers update candidates, expiry and backoff as specified |
| `EndpointObject.EndpointController.Select` | src/endpoint.rs:1036-1183 | for every cycle reason the fields and the switch equal the value model's |
| `EndpointObject.EndpointController.SelectForced` | src/endpoint.rs:1051-1091 | the Forced branch leaves the fields and the switch of the value model |
| `EndpointObject.EndpointController.SelectAttemptFailed` | src/endpoint.rs:1092-1160 | the AttemptFailed branch leaves the fields, the switch and the charge of the value model |
| `EndpointObject.EndpointController.RetryPreferred` | src/endpoint.rs:1133-1159 | count the failure, probe committed-good if due and granted, otherwise rotate or end the round: the fields then equal the value model's outcome |
| `EndpointObject.EndpointController.ChargeFallback` | src/endpoint.rs:864-909 | the charge before a probe: refused, granted and recorded, or the ledger disabled |
| `EndpointObject.EndpointController.OnAuthenticated` | src/endpoint.rs:662-721 | commits the address or starts its probation, as the value model does |
| `EndpointObject.EndpointController.OnAuthenticatedActivity` | src/endpoint.rs:723-741 | activity and DATA evidence equal the value model's |
| `EndpointObject.EndpointController.PromoteCandidate` | src/endpoint.rs:743-779 | returns the verdict and changes the fields only when it promotes |
| `EndpointObject.EndpointController.ProbationRollbackDue` | src/endpoint.rs:512-548 | the rollback timer authorises and charges exactly when the value model does |
| `EndpointObject.EndpointController.AuthorizeOperatorRollback` | src/endpoint.rs:554-584 | the operator's rollback authorises and charges exactly when the value model does |
| `EndpointObject.EndpointController.OnSessionEnded` | src/endpoint.rs:587-590 | authentication ends and nothing else changes |
| `Resources.SlotSteps` | src/client.rs:445-545 | retaining, releasing and cleaning up one address keep belief honest: Present means installed, Missing and NotNeeded mean absent, only a pending removal is uncertain; a ready address has what it needs; a finished cleanup leaves nothing |
| `Resources.ReleaseExceptTracks` | src/client.rs:1587-1600 | afterwards exactly the kept addresses have an entry that is not being released, ready ones are still ready, and nothing is in the kernel without an entry |
| `Resources.CleanupAllTracks` | src/client.rs:1570-1580 | retrying cleanups touches only entries that are being released and drops one only when neither route nor rule remains |
| `Resources.EnsureSucceeds` | src/client.rs:1450-1516 | when the kernel answers and accepts, retaining an address makes it ready with its needed route and rule installed, whatever a cancelled release left behind |
| `Resources.ReleaseSucceeds` | src/client.rs:1531-1568 | when the kernel confirms the deletions, a released address has no entry, no route and no rule, and nothing else changes |
| `ResourceRuns.ResourcesTrackReality` | src/client.rs:1110-1165 | in every run of controller and client: while a session is up packets go to the controller's current address whose needed route and rule really are installed, everything in the kernel has an entry, and neither current nor committed-good is being released before shutdown |
| `ResourceRuns.CycleKeeps` | src/client.rs:1609-1622 | a reconnect cycle with or without a switch keeps all of that |
| `ResourceRuns.CloseLeavesNothing` | src/client.rs:702-712 | shutdown with confirmed deletions leaves no entry, no route and no rule |
| `ResourceObject.Client.EnsureInstalled` | src/client.rs:1450-1516 | find or append the entry, cancel a release, reconcile, add; the list then stands for the specified table and the result says whether the address is ready |
| `ResourceObject.Client.RetryCleanupAddr` | src/client.rs:1531-1568 | one cleanup attempt on the list, removing the entry when complete |
| `ResourceObject.Client.RetryCleanup` | src/client.rs:1570-1580 | all pending cleanups, in list order |
| `ResourceObject.Client.ReleaseExcept` | src/client.rs:1587-1600 | retain these addresses and release all others, in list order |
| `ResourceObject.Client.ApplySwitch` | src/client.rs:1609-1622 | keep the target and committed-good, release the rest, retarget |
| `Pipeline.DeliveryOrder` | src/pipeline.rs:144-218 | for every worker count and interleaving, worker deaths included: what was delivered is a prefix of the processed accepted batches in submission order, and next_dispatch = (next_collect + in_flight) mod n |
| `Pipeline.SameAsInline` | src/pipeline.rs:144-218 | with nothing dropped or lost, it is a prefix of exactly what inline mode yields for the same submissions |
| `Pipeline.Conservation` | src/pipeline.rs:144-218 | submitted = delivered + in flight + pending + dropped, and only a dead worker adds a further term |
| `Pipeline.Progress` | src/pipeline.rs:92-109 | while anything is in flight and the next worker lives, a worker or collect step is enabled and lowers the measure: no deadlock behind full queues |
| `Pipeline.Drains` | src/pipeline.rs:188-218 | hence everything in flight drains within as many steps as the measure |
| `Pipeline.RunKeeps` | src/pipeline.rs:81-218 | every step of workers and I/O thread keeps what each worker owes: every n-th batch from its own first one |
| `PipelineRoom.FlushHandsOver` | src/pipeline.rs:159-186 | the pending batch goes behind what waits at the worker in turn while fewer than 64 batches wait there, is dropped and counted at 64, and is lost to a dead worker; no other queue changes |
| `PipelineRoom.SubmitBatches` | src/pipeline.rs:144-157 | a job joins the pending batch, which is handed over exactly when it is the sixteenth |
| `PipelineRoom.StartsRoomy` | src/pipeline.rs:81-122 | a new pipeline has as many living workers as threads, and room |
| `PipelineRoom.ShareOfTurn` | src/pipeline.rs:159-186 | the worker in turn holds no more than its share of what is in flight |
| `PipelineRoom.NothingDropped` | src/pipeline.rs:159-186 | in every run in which fewer than 64 batches per worker are in flight and no worker has died, nothing is dropped and nothing is lost |
| `PipelineRoom.RoomySameAsInline` | src/pipeline.rs:144-218 | such a run delivers a prefix of what inline mode yields |
| `PipelineRoom.EverythingComesOut` | src/pipeline.rs:144-218 | after such a run a flush and some work deliver every job ever submitted, processed, in submission order |
| `PipelineRoom.StaysSmall` | src/pipeline.rs:76-80 | no batch exceeds sixteen jobs, no queue sixty-four batches |
| `PipelineObject.Pipeline.Submit` | src/pipeline.rs:144-157 | accepts a job into the batch, flushing a full one, or processes it inline; false exactly when that flush gave the batch up |
| `PipelineObject.Pipeline.Flush` | src/pipeline.rs:159-186 | the batch goes to the worker in turn, or is dropped and counted when its queue is full or it is dead |
| `PipelineObject.Pipeline.Collect` | src/pipeline.rs:188-218 | whatever the workers do between two polls, the loop delivers exactly the batches that are next in turn, in order, and stops only when none is ready |
| `AntiReplay.CheckRefinesSet` | src/anti_replay.rs:36-69 | the bit window decides like a set: from 1 on a number is accepted exactly when it is new and above the maximum or less than 4000 below it; no number, 0 included, is accepted twice |
| `AntiReplay.EpochAcceptsOnce` | src/anti_replay.rs:25-69 | after a reset that leaves stale bits in place, over any received sequence, no number is accepted twice |
| `AntiReplay.AntiReplay.IsValid` | src/anti_replay.rs:36-69 | the method on the array, with its clearing loop, computes that decision and the new window |
| `AntiReplay.AntiReplay.ReInitialise` | src/anti_replay.rs:25-27 | the reset sets the maximum to zero and leaves every bit in place |
| `AntiReplay.AntiReplay.NextSeqForSend` | src/anti_replay.rs:29-34 | returns the current send number and advances it, wrapping at 2^64 |
| `ServerTables.TablesStayConsistent` | src/server.rs:241-278 | in every run by_addr is the exact inverse of live addresses, by_const_id indexes exactly the Ready connections, ready_num counts them (at most 1000), free lists are exactly the empty slots, and each open socket belongs to one conversation of one Ready connection |
| `ServerTables.StepKeeps` | src/server.rs:376-783 | every event keeps the tables consistent |
| `ServerTables.PreReadyKeeps` | src/server.rs:484-555 | becoming Ready, giving up and the recovery swap keep the tables consistent |
| `ServerTables.NeverHappens` | src/server.rs:499-520 | the branches logged as "shouldnt happen" in pre_ready cannot be reached |
| `ServerTables.SocketHasReadyOwner` | src/server.rs:676-720 | the owner of an open conversation socket is a live Ready connection that maps that conversation to it |
| `ServerTables.EraseKeeps` | src/server.rs:259-278 | erasing removes one connection from every table, closes exactly its sockets and leaves all others alone |
| `ServerTables.ExpireKeeps` | src/server.rs:729-739 | expiry takes exactly the expired conversations from one connection, closes exactly their sockets, and keeps the tables consistent |
| `ServerTables.CountReady` | src/server.rs:484-555 | the counter is the number of Ready connections |
| `ServerRecovery.HandshakeExact` | src/server.rs:448-555 | for every consistent server: a first packet is answered with our id, a wrong echo is ignored, a right one makes the connection Ready while fewer than 1000 are, or recovers the connection that is Ready under the same constant id (new ids, new address, same conversations, new generation, the new slot idle at the old address, one heartbeat), unless this handshake began before that one's |
| `ServerRecovery.NewAddressExact` | src/server.rs:376-418 | a handshake from a new address opens a connection if and only if it is a first packet and fewer than 10000 exist |
| `ServerRecovery.SendExact` | src/anti_replay.rs:29-34 | a packet carries the two ids and the next number, which then goes up by one and wraps around |
| `ServerSweep.VisitExact` | src/server.rs:773-781 | a visit removes a Ready connection exactly when it was silent for over 240 s and has no conversation, and any other exactly when its handshake began over 10 s ago |
| `ServerSweep.HeardIsKept` | src/server.rs:575-617 | an accepted heartbeat protects its connection from every visit for 240 s |
| `ServerSweep.DataExact` | src/server.rs:619-663 | DATA opens a socket if and only if the conversation is new, fewer than 10000 are open and the kernel agrees; then conversation and socket point to each other |
| `ServerObject.Server.OnHandshake1` | src/server.rs:448-482 | slab, maps, counters and reply after a handshake packet equal the value model's |
| `ServerObject.Server.PreReady` | src/server.rs:484-555 | slab, maps, counters and reply after becoming ready, giving up or recovering by const_id equal the value model's |
| `ServerObject.Server.AllocConn` | src/server.rs:241-249 | takes a free slot or extends the slab |
| `ServerObject.Server.OnHandshakePacket` | src/server.rs:376-446 | a handshake packet of a new or known address has the value model's effect and reply |
| `ServerObject.Server.EraseConn` | src/server.rs:267-278 | the connection leaves slab, indexes and counters and its sockets are closed, as in the value model |
| `ServerObject.Server.ClearInactiveConns` | src/server.rs:752-783 | when due, a pass visits exactly its quota of live slots, the first ones from the cursor on, ends at the last of them with the cursor behind it, erases exactly the visited connections that are not to be kept, and leaves every table as those visits of the value model do, in that order |
| `ServerSweep.NoSlotWaits` | src/server.rs:752-783 | whatever else the server does in between, a slot that stays occupied is visited by one of any 10000 passes, and the visit empties it exactly when its connection is not to be kept |
| `ServerSweep.WholeRound` | src/server.rs:757-764 | once around reaches every live slot, so a pass always meets its quota |
| `ServerSweep.QuotaIs` | src/server.rs:761 | a pass over n connections visits n / 50 + 1 of them, or all |
| `SessionSafety.AtMostOnce` | src/conn.rs:186-206 | over every run with duplication, reordering, misdelivery, reconnects and recovery: the server never delivers a packet twice, and no client delivers one twice |
| `SessionSafety.HandshakeAgreement` | src/client.rs:966-1002 | a client that is Ready under two ids agrees with the server: at some point of the run a server connection was Ready with the same ids, swapped |
| `SessionSafety.IdsAreExclusive` | src/server.rs:448-555 | at any time an id is used by at most one connection that is in its handshake or Ready, after recovery too |
| `SessionSafety.OnePeerPerId` | src/server.rs:484-555 | over a whole run a server id is Ready with one client id only |
| `SessionSafety.NoReflection` | src/conn.rs:186-206 | what the server delivers carries an id a client drew, what a client delivers carries an id of the server, and the pair was agreed |
| `SessionLiveness.FirstTime` | src/client.rs:966-1002 | with every packet delivered once, a client unknown to the server gets a Ready connection of its own after one exchange, and is Ready itself unless the first heartbeat has number 0 |
| `SessionLiveness.Reconnect` | src/server.rs:484-555 | the same after a reconnect: the connection Ready under the client's constant id goes on at the new address with its conversations |
| `SessionLiveness.NextBeat` | src/server.rs:557-573 | the next heartbeat makes such a client Ready |
| `SessionLiveness.ServerDeliversNew` | src/conn.rs:186-206 | from number 1 on, the server delivers a packet if and only if it carries the two ids of the connection, its number is new, and none 4000 or more ahead was delivered |
| `SessionLiveness.ClientDeliversNew` | src/conn.rs:186-206 | so does a client that has learnt the server's id |
| `SessionRuns.NextKeeps` | src/server.rs:376-663 | every step of server, clients and network keeps one window epoch per id |
| `SessionRuns.SaferKeeps` | src/server.rs:575-617 | a completed decryption is checked against its generation, its ids and the window; what is accepted was not accepted before |
| `SessionRuns.ClientStepOk` | src/client.rs:966-1071 | every client step keeps its ids fresh until used and its window equal to what was accepted under them |
| `Session.Epoch` | src/conn.rs:48-61 | taking over or keeping a connection under a fresh id starts a new window epoch although the bits are not cleared |
| `Conv.IndexAgreesWithPlainMap` | src/conv.rs:66-124 | under every sequence of operations the two maps stay inverse, the LRU set is exactly the stamps of live conversations, and every step is the step of a plain map |
| `Conv.PassEvictsOldestIdle` | src/conv.rs:106-124 | a pass that is not rate-limited evicts exactly min(quota, number idle) conversations, oldest first, each idle at least 180 s, and if fewer than the quota none that stays is that idle; a rate-limited one does nothing |
| `Conv.TimesAre` | src/conv.rs:106-124 | idle from 180 s on, a pass at most every second, and ties go to the smaller conversation number |
| `Conv.QuotaIs` | src/conv.rs:106-124 | a pass over n conversations evicts at most n / 30 + 1 |
| `Conv.InsertKeepsIffFresh` | src/conv.rs:66-71 | an insert keeps the index consistent if and only if conversation and peer are both new, or it repeats what is there |
| `ConvObject.ConvManager.ClearInactive` | src/conv.rs:106-124 | the eviction loop over the minimum of the set returns and leaves exactly what the specified pass does |
| `ConvObject.ConvManager.Insert` | src/conv.rs:66-71 | all four containers gain the conversation |
| `ConvObject.ConvManager.UpdateActiveTime` | src/conv.rs:73-82 | a known conversation's stamp moves to the new time, an unknown one changes nothing |
| `ConvObject.ConvManager.Erase` | src/conv.rs:85-92 | one conversation leaves all four containers and its data is returned |
| `ConvObject.ConvManager.Clear` | src/conv.rs:95-102 | empties all containers but the clear time and returns the data of every conversation exactly once |
| `GaloisField.GfMul` | src/crypto/aes_table.rs:26-37 | the shift-and-add loop multiplies in GF(2^8) |
| `GaloisField.MulLinear` | src/crypto/aes_table.rs:26-37 | multiplication distributes over addition |
| `Generator.NoSmallerPeriod` | src/crypto/aes_table.rs:42-51 | 3 has order 255: no smaller power of it is 1 |
| `Generator.PowSurjective` | src/crypto/aes_table.rs:42-51 | the powers of 3 reach every non-zero byte |
| `Generator.InverseUnique` | src/crypto/aes_table.rs:52-56 | multiplicative inverses are unique |
| `Generator.MulAssoc` | src/crypto/aes_table.rs:26-37 | multiplication is associative |
| `Generator.MulComm` | src/crypto/aes_table.rs:26-37 | multiplication is commutative |
| `AesTables.BoxesInverse` | src/crypto/aes_table.rs:52-66 | the S-box of FIPS 197 and its inverse table undo each other on all 256 bytes |
| `AesTables.SpinIsAffine` | src/crypto/aes_table.rs:56-63 | four rotate-and-add turns are the affine map |
| `AesGen.PowerTables` | src/crypto/aes_table.rs:43-51 | after the loop pow[i] is 3^i and log undoes it |
| `AesGen.SBoxTables` | src/crypto/aes_table.rs:52-66 | the loop fills the S-box (affine map of the multiplicative inverse) and its inverse |
| `AesGen.GenTables` | src/crypto/aes_table.rs:41-84 | all generated tables are correct: S-box, inverse, and the MixColumns and InvMixColumns columns with their rotations |
| `Aes.MixColumnsInverse` | src/crypto/aes_table.rs:67-82 | MixColumns and InvMixColumns undo each other |
| `Aes.EquivalentInverseCipher` | src/crypto/aes_table.rs:124-136 | the equivalent inverse cipher of section 5.3.5 with the transformed key schedule computes the inverse cipher of section 5.3 |
| `Aes.CipherInverts` | src/crypto/aes_table.rs:139-198 | for every key schedule and block, cipher and inverse cipher undo each other, in both orders |
| `AesRounds.TableRound` | src/crypto/aes_table.rs:148-157 | four table look-ups per word are SubBytes, ShiftRows, MixColumns and AddRoundKey; and their inverses on the decryption side |
| `AesRounds.UnmixedIs` | src/crypto/aes_table.rs:129-136 | the key transformation through S-box and decryption tables is InvMixColumns |
| `AesObject.ExpandKey` | src/crypto/aes_table.rs:105-123 | the expansion loops compute the key expansion of section 5.2 |
| `AesObject.InvertKey` | src/crypto/aes_table.rs:124-136 | the decryption schedule holds the reversed round keys, InvMixColumns applied to rounds 1 to 9 only |
| `AesObject.AesTable.EncryptBlock` | src/crypto/aes_table.rs:139-167 | the block is overwritten with its AES-128 encryption |
| `AesObject.AesTable.DecryptBlock` | src/crypto/aes_table.rs:170-198 | the block is overwritten with its AES-128 decryption |
| `AesObject.BlocksInvert` | src/crypto/aes_table.rs:139-198 | decrypting an encrypted block gives it back for every key and block, and the other way round |
| `AesVector.KnownAnswer` | src/crypto/aes_table.rs:105-198 | the vector of FIPS 197, appendix C.1, in both directions: key expansion, S-box, byte order and round order are those of AES-128 |
| `BlockModes.CbcInverts` | src/crypto/cipher.rs:183-235 | zero-IV CBC decryption inverts encryption |
| `BlockModes.CfbInverts` | src/crypto/cipher.rs:238-265 | byte-wise CFB decryption inverts encryption from any register state |
| `BlockModes.CfbIsBlocks` | src/crypto/cipher.rs:238-250 | the byte loop with its running register computes block-wise CFB-128 of section 6.3 of NIST SP 800-38A, short last block included |
| `BlockModes.UnpadPad` | src/crypto/cipher.rs:269-290 | unpadding what was padded gives the data back |
| `BlockModes.XorKeyTwice` | src/crypto/cipher.rs:292-296 | the repeating xor is its own inverse |
| `CryptoObject.AesKey.CbcEncryptZeroIv` | src/crypto/cipher.rs:183-195 | the chunk loop leaves the buffer equal to the zero-IV CBC encryption of what it held |
| `CryptoObject.AesKey.CbcDecryptZeroIv` | src/crypto/cipher.rs:221-234 | the chunk loop of the table backend leaves the buffer equal to the zero-IV CBC decryption of what it held |
| `CryptoObject.AesKey.CfbEncryptZeroIv` | src/crypto/cipher.rs:238-250 | the byte loop with register and offset leaves the buffer equal to the CFB encryption of what it held |
| `CryptoObject.AesKey.CfbDecryptZeroIv` | src/crypto/cipher.rs:252-265 | the byte loop leaves the buffer equal to the CFB decryption of what it held |
| `CryptoObject.XorInPlace` | src/crypto/cipher.rs:292-296 | the buffer becomes its sum with the repeated key |
| `PacketCrypto.CrossRole` | src/crypto/mod.rs:193-236 | for every cipher and tag, what one role encrypts the other decrypts to the same bytes exactly when the packet is at most 1800 bytes |
| `PacketCrypto.EncryptSucceeds` | src/crypto/mod.rs:193-260 | encryption succeeds if and only if the data fits, CFB has a whole block and the AEAD does not refuse |
| `PacketCrypto.HmacGuards` | src/crypto/mod.rs:217-236 | in the encrypt-then-MAC mode nothing decrypts unless its last 20 bytes are the HMAC of the rest |
| `PacketCrypto.TagGuards` | src/crypto/mod.rs:217-236 | in the other modes nothing decrypts unless its plaintext ends with the tag of the rest, or the AEAD opens it; and nothing over 1800 bytes does |
| `PacketCrypto.RolesAreOpposite` | src/crypto/mod.rs:49-95 | client and server derive each other's keys with directions swapped |
| `PacketCrypto.TagVerifies` | src/crypto/auth.rs:91-134 | an appended tag verifies and gives back the length of the body |
| `CryptoObject.Crypto.EncryptVec` | src/crypto/mod.rs:193-209 | returns what the packet model encrypts: length limit, AEAD, encrypt-then-MAC or MAC-then-encrypt |
| `CryptoObject.Crypto.DecryptVec` | src/crypto/mod.rs:217-236 | returns what the packet model decrypts, with all its refusals |
| `CryptoObject.Crypto.CipherEncrypt` | src/crypto/mod.rs:238-260 | runs the buffer loops of the configured cipher and returns what the model's cipher computes, refusing CFB under 16 bytes |
| `CryptoObject.Crypto.CipherDecrypt` | src/crypto/mod.rs:262-289 | the inverse loops, refusing a length that is not a multiple of 16, bad padding and short CFB |
| `Gro.BurstSplits` | src/wire.rs:139-172 | a merged burst of wrapped packets of 14 to 1800 bytes comes apart into exactly those packets, in order, each where its span says |
| `Gro.BurstSurvives` | src/wire.rs:150-172 | whatever follows a burst, its packets are recovered |
| `Gro.SpansInBounds` | src/wire.rs:150-172 | on any bytes the spans are in bounds, at most 1800 long, disjoint and in order, and what lies before is untouched |
| `Gro.ShortPacketLost` | src/wire.rs:150-154 | a lone wrapped packet under 14 bytes is not returned, whatever the cipher |
| `Gro.HeadUnmasks` | src/crypto/mod.rs:308-328 | unmasking sixteen bytes restores a masked head under the peer's keys |
| `CryptoObject.Crypto.GroUnwrap` | src/wire.rs:150-172 | the splitting loop unmasks heads in place and returns exactly the model's spans and bytes |
| `CryptoObject.Crypto.GroWrap` | src/wire.rs:139-147 | prefix the length and mask the head: the result is the specified wrapping |
| `CryptoObject.Crypto.DecryptSaferGro` | src/conn.rs:162-178 | splits the buffer in place and returns the plaintexts of the spans that decrypt, in order |
| `Safer.BurstDelivers` | src/conn.rs:111-178 | a burst of safer packets, built, encrypted and wrapped by one role and merged on the way, is split and decrypted by the other into exactly those packets in order, whenever each fits in 1800 bytes |
| `Safer.PacketDelivers` | src/conn.rs:111-160 | a packet that travels alone without wrapping arrives as it was sent |
| `Safer.HeaderReads` | src/wire.rs:72-113 | a built safer packet parses to its ids, number, type, roller and payload; another type has ids but no body |
| `Safer.EncryptGrows` | src/crypto/mod.rs:193-260 | encryption never shortens a packet, so every wrapped safer packet is long enough to be split again |
| `WireFormat.SaferLayout` | src/wire.rs:72-80 | ids and number most significant byte first, then type, roller and payload |
| `WireFormat.WrapLayout` | src/wire.rs:139-147 | the length prefix, and what is done to the first bytes under each cipher |
| `WireFormat.PacketLayout` | src/crypto/mod.rs:193-209 | nonce first with an AEAD, tag of the ciphertext last with HMAC, tag of the plaintext encrypted with it otherwise |
| `WireFormat.CipherKey` | src/crypto/mod.rs:124-160 | a key per direction under HMAC, one shared key without |
| `WireFormat.KeyLabels` | src/crypto/mod.rs:49-95 | the keys of the two directions, by the labels they are derived under |
| `WireFormat.PadLayout` | src/crypto/cipher.rs:269-277 | padding to a multiple of 16: zeros, and last the number of bytes added |
| `WireFormat.UnpadExact` | src/crypto/cipher.rs:280-290 | padding comes off exactly when its last byte names at most sixteen bytes that are there |
| `WireFormat.ParseExact` | src/wire.rs:92-113 | a packet has ids from 16 bytes on, and a body from 18 bytes on if it is a heartbeat or DATA |
| `WireFormat.CbcPacket` | src/crypto/cipher.rs:183-195 | the first block is encrypted as it is, every further one chained to the ciphertext before it: a zero initialisation vector |
| `WireFormat.CfbPacket` | src/crypto/mod.rs:246-257 | the first block, encrypted on its own unless in legacy mode, is added to the encryption of sixteen zeros |
| `WireFormat.XorPacket` | src/crypto/cipher.rs:292-296 | byte i is added to byte i mod 16 of the key |
| `Checksum.FoldedIs` | src/packet/checksum.rs:17-21 | two folds suffice: the result is the one's-complement sum of any 32-bit accumulator |
| `Checksum.VerifiesIff` | src/packet/checksum.rs:29-41 | a buffer of any length verifies if and only if its 32-bit sum is a non-zero multiple of 65535 |
| `Checksum.WrittenVerifies` | src/packet/checksum.rs:24-41 | a zero field replaced by the checksum makes a buffer of any length verify, although the sum may wrap around |
| `Checksum.DetectsOneWord` | src/packet/checksum.rs:29-41 | two verifying buffers that differ in one word differ there only between 0 and 65535, unless the sum wraps around once more or less, which takes over 131070 bytes |
| `Checksum.SumWords` | src/packet/checksum.rs:5-14 | the accumulating loop, odd byte included, in wrapping 32-bit arithmetic |
| `Checksum.Fold` | src/packet/checksum.rs:17-21 | returns the complement of the folded accumulator |
| `Checksum.CsumWithPseudo` | src/packet/checksum.rs:29-32 | returns the checksum of pseudo header and data, whatever their lengths |
| `HeaderBytes.KnownChecksums` | src/packet/checksum.rs:5-26 | two known answers, one of an odd length |
| `Headers.UdpRoundTrip` | src/packet/udp.rs:9-43 | a UDP segment is built if and only if it is at most 65535 bytes, and then parses to its ports and payload |
| `Headers.IcmpRoundTrip` | src/packet/icmp.rs:19-75 | an echo message of any length parses in the other role to its id, sequence and payload, and is ignored in its own role |
| `Headers.Ip4RoundTrip` | src/packet/ip.rs:17-102 | an IPv4 header parses to its addresses, protocol and lengths, with a verifying checksum |
| `Headers.Ip6RoundTrip` | src/packet/ip.rs:17-125 | an IPv6 header parses to its addresses, protocol and lengths |
| `HeaderBytes.Ip4Layout` | src/packet/ip.rs:17-40 | the IPv4 header byte by byte: don't-fragment, time to live and identification included |
| `HeaderBytes.Ip6Layout` | src/packet/ip.rs:41-52 | the IPv6 header byte by byte |
| `HeaderBytes.PseudoLayout` | src/packet/ip.rs:129-150 | the pseudo headers byte by byte |
| `HeaderBytes.Ip4Accepted` | src/packet/ip.rs:71-102 | exactly which packets the IPv4 parser accepts, and what it reports |
| `HeaderBytes.Ip6Accepted` | src/packet/ip.rs:103-125 | the same for IPv6 |
| `HeaderBytes.UdpAccepted` | src/packet/udp.rs:27-43 | exactly which segments the UDP parser accepts, and what it reports |
| `HeaderBytes.IcmpAccepted` | src/packet/icmp.rs:47-75 | exactly which messages the ICMP parser accepts in each role, and what it reports |
| `Tcp.TcpRoundTrip` | src/packet/tcp.rs:28-169 | a built segment of any length, SYN or not, parses to its own fields, timestamps and payload, and its checksum verifies |
| `Tcp.OptionsWalk` | src/packet/tcp.rs:110-139 | walking the options that were built finds exactly their timestamps |
| `HeaderBytes.ForeignSkipped` | src/packet/tcp.rs:110-139 | NOPs and foreign options of any length in front of anything are skipped |
| `HeaderBytes.WalkStops` | src/packet/tcp.rs:110-139 | what ends the walk, and that timestamps are taken |
| `HeaderBytes.StampsRead` | src/packet/tcp.rs:110-139 | the two timestamps, most significant byte first |
| `HeaderBytes.TcpLayout` | src/packet/tcp.rs:28-88 | the segment byte by byte: numbers, offset, flags, window and every option |
| `HeaderBytes.TcpAccepted` | src/packet/tcp.rs:142-169 | exactly which segments the TCP parser accepts, and what it reports |
| `Tcp.FaultsIff` | src/packet/tcp.rs:142-169 | parsing slices out of range exactly on a data offset of one to four words |
| `Tcp.FaultExample` | src/packet/tcp.rs:142-169 | a bare header of twenty bytes with a data offset of one word is such a segment |
| `Tcp.PacketRoundTrip` | src/packet/ip.rs:64-125 | a whole packet: the IP layer hands back the very segment, from which the transport layer recovers everything |
| `PacketBuffers.BuildUdp` | src/packet/udp.rs:9-24 | appends the segment behind what the buffer held |
| `PacketBuffers.BuildIpHeader` | src/packet/ip.rs:17-52 | appends the header behind what the buffer held, with the IPv4 checksum filled in |
| `PacketBuffers.BuildIcmp` | src/packet/icmp.rs:19-38 | appends the message behind what the buffer held |
| `PacketBuffers.BuildTcp` | src/packet/tcp.rs:28-88 | writes header, options and payload behind what the buffer held, then the checksum |
| `PacketBuffers.ParseOptions` | src/packet/tcp.rs:110-139 | the option loop finds the timestamps the walk defines, on any bytes |

## Left out

- Literal endpoints: a controller for an address instead of a hostname never queries or switches; only hostname endpoints are modelled.
- The cache file: loading and saving the committed address appear as inputs (the cached address and its age, whether a save succeeded); its text format is not modelled.
- `cfg.stateFile` stands for "a cache file is configured and the fallback policy is enabled", the only way the ledger path exists.
- File locking, atomic replacement and permissions: one durable cell with the outcomes listed in `LedgerRuns.Outcome`.
- `u64` subtraction of a later clock reading is saturating everywhere; exponential backoff near 2^64 ms is not modelled.
- Trimming in the ledger loader: only ASCII white space.
- Metrics of owned routes and the text of firewall patterns: a route and a rule are identified by their address.
- Other processes changing this client's routes or rules.
- The TCP phase of the client's handshake, FakeTCP sequence numbers and raw-mode details: the session model starts at the udp2raw handshake.
- SessionSafety.AtMostOnce: a packet is identified by its two ids and sequence number; ids are drawn fresh, replay checking is on, and only the server and the clients produce packets.
- Conversation times inside the server model: expiry appears as an event with an arbitrary set of expired conversations; `Conv` models which ones a pass picks.
- `new_conv`: the random loop that draws an unused conversation number.
- Hashes, CRC, HMAC, key derivation and the XChaCha20-Poly1305 AEAD: function parameters with the laws in `PacketCrypto.Lawful`. The `aes` crate backend is taken to be AES-128 like the table backend.
- The crate backend's CBC decryption, which decrypts all blocks before adding the previous ciphertext: same function, not modelled as a second loop.
- AesObject.AesTable.constructor: takes exactly sixteen key bytes, which is what every caller passes.
- EndpointRecovery.RecoveryIsBounded: stated for attempts during which the resolver does not answer; an answer with a new set restarts the count, as in the source.
- EndpointRecovery.EveryCandidateIsTried: stated for a silent resolver and without the fallback policy, whose rounds may end a rotation early; `EndpointRecovery.NeverPinned` covers every policy at twice the number of attempts.
- EndpointRecovery.NeverPinned: stated for resolver calls shorter than the round timeout, because a round opened before a longer call has run out when the call returns.
- Overflow checks of a debug build: the 32-bit checksum sum wraps around, as in the release profile.
- Layouts of bare, handshake and DATA payloads in `wire.rs`: they would only add easy members.
- Parsing of the server's and client's command line, logging, sockets, the event loop, batching, BPF and netlink messages.
