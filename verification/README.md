# Threadline, verified

A Dafny model of the parts of Threadline that are hard to get right by reading: the WebRTC negotiation between two
browsers, the room Durable Object with its persistence queue, the counters and caches of the API, and the data the
API keeps over whole runs. Code that updates an object in place is a class here as well; each of its methods is
proved to compute a function on values, and what the code promises is proved about runs of those functions.

| file | what it models |
|---|---|
| `ConnectionIds.dfy` | the order of connection ids and the tie-break built on it |
| `PeerLink.dfy` | one end of a peer connection: offers, answers, glare, buffered candidates, the signal queue |
| `Negotiation.dfy`, `Candidates.dfy` | two such ends over ordered signalling, in every interleaving; what becomes of every candidate |
| `OutboxStore.dfy`, `Outbox.dfy` | the Durable Object's retry queue and alarm; overlapping attempts, the alarm's pass, the API's log |
| `Retries.dfy` | which statuses give a delivery up, and when a delivery is sent, over whole runs |
| `LateFailures.dfy` | how often one delivery can be sent at worst |
| `MeshClient.dfy`, `Room.dfy` | who is in a room, what every socket is sent, what clients do with it, hibernation |
| `Traffic.dfy` | the same counted off the steps of a run: who is connected, what each socket was told, what is recorded |
| `RateLimits.dfy` | one window counter in process, in MongoDB and in Redis; the limiter over a cache with a fallback |
| `TurnCache.dfy` | the per-user cache of TURN credentials and of requests for them |
| `RoomHistory.dfy` | paging backwards through a room's log |
| `Memberships.dfy`, `Policy.dfy`, `Roles.dfy`, `OrganizationApi.dfy` | memberships, the access policy, and the routes that change who has which role |
| `FileTransfer.dfy`, `OverlappingTransfers.dfy` | files over a data channel: chunks, reassembly, abandoned transfers, and two at once |
| `Options.dfy`, `Numbers.dfy`, `Sequences.dfy` | what the others share |

Four results say that the code does less than one might read into it, and exactly when:

- `RoomHistory.WalkIsCompleteIff`: following `nextBefore` shows a room's whole log if and only if no page boundary
  separates two events of the same millisecond; `TiesAreSkipped` is a case in which an event is never shown.
- `Roles.LastAdminIsLostIff`: the guard against losing the last administrator covers stepping down oneself, not
  being demoted by the owner or by a member with `canManageMembers`.
- `OverlappingTransfers.IntactIffApart`: whatever the sender interleaves of two files sent over one channel, both
  arrive intact if and only if one transfer lies wholly before the other. The exception are two files of one name and
  type of which the shorter is the front of the longer up to a chunk boundary: for exactly these some overlap is
  harmless (`OverlappingTransfers.OverlapsAlwaysHarmIff`). What any overlap hands over is
  `OverlappingTransfers.OverlappingTransfersMix`.
- `Outbox.SendsAreBounded`: the limit of eight attempts counts failures of copies, not sends. A first attempt beside
  the alarm's can set the count back once, so a delivery is sent up to fifteen times, and
  `LateFailures.FifteenSendsHappen` is such a run; snapshots, which only the alarm sends, stay within eight.

Where documentation and code disagree the model follows the code. `docs/realtime.md` says that board snapshots are
persisted through the API, but the ingest schema has no whiteboard event: no board is ever logged, and the newest one
is still queued or was discarded (`Outbox.NewestBoardIsQueuedOrDiscarded`). The
comment on the rate limiter says that its fallback narrows the limit. The two stores count independently: while all
requests of an interval one window long get the cache's answer, or all fall back, at most twice the limit is admitted
in it (`RateLimits.OneStoreAdmitsTwice`), but a cache that fails or comes back meanwhile allows four times the limit,
for every limit and every window (`RateLimits.IntervalsAreBounded`, `RateLimits.BoundsAreReached`).

## Assumptions

- Browsers follow section 3.2 of RFC 8829, with rollback as in its section 4.1.10.2, and section 10.7 of the W3C
  WebRTC 1.0 Recommendation: `negotiationneeded` fires only on a stable connection whose operations chain is empty,
  chained operations run in order, `setRemoteDescription` of an offer rolls a local offer back, and
  `setLocalDescription` does not fail (one peer by itself is modelled with failing offers, too). Descriptions
  relayed between two peers are valid ones.
- The two ids of a pair are known and distinct when signals are applied, and signalling is first-in first-out.
- A Durable Object runs no other handler between two storage operations of one; API handlers are atomic on the
  repository. Random ids are fresh. Every socket closes once, and only a closing socket may still be enumerated.
- Clocks do not go back, where a statement says so. Redis has a key until its expiry time and not from then on.

## Model

| member | source | states |
|---|---|---|
| `ConnectionIds.OrderIsTotal` | apps/web/lib/peer-mesh.ts:124-127 | JavaScript's string order decides every pair of distinct ids exactly one way |
| `ConnectionIds.OneInitiatorPerPair` | apps/web/components/room-workspace.tsx:551-555 | of two ids exactly one is polite and exactly one initiates, and the initiator is the impolite one |
| `PeerLink.Peer.constructor` | apps/web/lib/peer-mesh.ts:158-173 | a new peer is stable, with nothing buffered, queued or pending |
| `PeerLink.Peer.OnNegotiationNeeded` | apps/web/lib/peer-mesh.ts:197-200 | the handler up to its await changes only `makingOffer` |
| `PeerLink.Peer.FinishOffer` | apps/web/lib/peer-mesh.ts:203-210 | the handler after its await: the new signalling state, the flag cleared, and the description sent |
| `PeerLink.Peer.GiveUpOffer` | apps/web/lib/peer-mesh.ts:205-210 | the handler when its await fails: the flag cleared, nothing else changed and nothing sent |
| `PeerLink.Peer.ReceiveSignal` | apps/web/lib/peer-mesh.ts:109-122 | a signal joins the end of the queue and changes nothing else |
| `PeerLink.Peer.ApplySignal` | apps/web/lib/peer-mesh.ts:226-239 | taking up the next signal: collision, tie-break, ignored or being installed, or its candidate handled |
| `PeerLink.Peer.TakeCandidate` | apps/web/lib/peer-mesh.ts:261-281 | a candidate is buffered before any remote description unless its offer was ignored, and handed over otherwise |
| `PeerLink.Peer.FinishInstall` | apps/web/lib/peer-mesh.ts:238-258 | installing a description hands over the whole buffer in order even if some adds fail, and leaves it empty |
| `PeerLink.Peer.FinishAnswer` | apps/web/lib/peer-mesh.ts:254-258 | the answer is set and sent; a failed candidate before it abandons the rest of the signal |
| `PeerLink.StepConserves` | apps/web/lib/peer-mesh.ts:244-281 | every step of one peer keeps: candidates handled = candidates handed over + candidates pending, as multisets |
| `PeerLink.StepKeepsOrder` | apps/web/lib/peer-mesh.ts:109-122 | every step keeps: signals received = signals taken up, then signals queued, in order, even after failures |
| `PeerLink.StepKeepsCoherence` | apps/web/lib/peer-mesh.ts:197-258 | every step keeps flags, tasks and signalling state coherent; no buffer once there is a remote description |
| `PeerLink.RunKeeps` | apps/web/lib/peer-mesh.ts:197-281 | order, conservation and coherence over every run of one peer, whatever browser and network do |
| `PeerLink.AnswerFlagIsUnread` | apps/web/lib/peer-mesh.ts:115-120 | the queue makes `isSettingRemoteAnswerPending` false wherever line 228 reads it |
| `PeerLink.CandidatesAreConserved` | apps/web/lib/peer-mesh.ts:244-281 | over every run, the candidate-only signals taken up are exactly those handed over plus those pending |
| `PeerLink.EverySignalIsFinished` | apps/web/lib/peer-mesh.ts:226-258 | whatever the browser makes of a description and of the buffered candidates, the signal ends: installed, the buffer handed over, an offer answered, its own candidate last; or refused, and nothing changed |
| `PeerLink.FailedOffersMayBeRetried` | apps/web/lib/peer-mesh.ts:197-212 | an offer that fails leaves the connection as it was, free to negotiate again |
| `Negotiation.NextKeeps` | apps/web/lib/peer-mesh.ts:197-260 | every move of either side keeps the invariant of the pair, through glare, rollback and ignored offers |
| `Negotiation.ReachableKeeps` | apps/web/lib/peer-mesh.ts:197-260 | the invariant holds after every interleaving from two fresh peers |
| `Negotiation.AnswersMeetTheirOffer` | apps/web/lib/peer-mesh.ts:237-242 | no answer reaches a peer that is not waiting with exactly the offer it answers, so none is refused |
| `Negotiation.OnlyTheImpoliteSideIgnores` | apps/web/lib/peer-mesh.ts:227-235 | the polite side never ignores an offer, the impolite side ignores one exactly when it collides |
| `Negotiation.LocalOffersAreCovered` | apps/web/lib/peer-mesh.ts:197-260 | a peer in have-local-offer has its offer or the answer to it under way, or the other side holds the offer and is answering it, or, if polite, a colliding offer is being made or under way |
| `Negotiation.OffersAreDistinct` | apps/web/lib/peer-mesh.ts:203-204 | a new offer differs from every one still held, agreed or under way |
| `Negotiation.MeasureDecreases` | apps/web/lib/peer-mesh.ts:197-260 | every move that carries a negotiation on lowers a measure |
| `Negotiation.RunsAreBounded` | apps/web/lib/peer-mesh.ts:197-260 | without a new `negotiationneeded`, whatever candidates and metadata are sent: the moves that carry on are at most the measure plus the signals sent |
| `Negotiation.StuckMeansSettled` | apps/web/lib/peer-mesh.ts:197-260 | no move is left exactly when both sides are stable, agree on the last exchange or on none yet, and have empty queues |
| `Negotiation.EveryNegotiationEnds` | apps/web/lib/peer-mesh.ts:197-260 | from every reachable state, carrying on ends without a new `negotiationneeded`, also while candidates and metadata are sent |
| `Negotiation.EveryNegotiationSettles` | apps/web/lib/peer-mesh.ts:197-260 | a reachable state is at an end exactly if both sides are stable on the same last exchange with nothing left over, and there is one once an offer was made |
| `Negotiation.EveryNeedIsNegotiated` | apps/web/lib/peer-mesh.ts:197-212 | from one settled state to the next each `negotiationneeded` makes one offer, and if there was any, the pair has agreed on one of these |
| `Negotiation.EveryRenegotiationTakesEffect` | apps/web/lib/peer-mesh.ts:197-260 | offers made after the pair had settled settle it on one of them, never again on the exchange it had before |
| `Candidates.RunDelivers` | apps/web/lib/peer-mesh.ts:109-122 | over every run, the candidates that have reached a side are those the other side sent, in order |
| `Candidates.EveryCandidateArrives` | apps/web/lib/peer-mesh.ts:174-281 | once a pair has settled on an exchange, both buffers are empty and each browser was handed exactly the candidates the other side sent |
| `Candidates.CandidatesWaitForADescription` | apps/web/lib/peer-mesh.ts:261-281 | over every run: before a remote description the browser was handed exactly the candidates taken up while an offer was being ignored, and the others wait in order; from then on it was handed those, then the waiting ones, then all later ones |
| `Candidates.PoliteHandsInOrder` | apps/web/lib/peer-mesh.ts:244-274 | over every run of a polite peer, handed over and pending together are the candidates taken up, in order; none is handed over before a remote description |
| `OutboxStore.DelaysGrow` | apps/realtime/src/index.ts:137-138 | the backoff never gets shorter and never exceeds thirty minutes |
| `OutboxStore.BackoffTable` | apps/realtime/src/index.ts:137-138 | the seven waits: 30 s, doubled six times, the last capped at 1,800 s |
| `OutboxStore.TotalDelayIsBounded` | apps/realtime/src/index.ts:95-99 | the waits before a delivery is discarded sum to at most 3,690,000 ms, reached by the seventh |
| `OutboxStore.Due` | apps/realtime/src/index.ts:351-356 | the alarm's snapshot holds, as they are queued, exactly the entries without a schedule or with one no later than now |
| `OutboxStore.RoomOutbox.Record` | apps/realtime/src/index.ts:457-504 | an own event is queued and attempted at once; a snapshot replaces its predecessor and is scheduled |
| `OutboxStore.RoomOutbox.Conclude` | apps/realtime/src/index.ts:506-563 | what a settled fetch does to queue and alarm, by its status: delete, discard, reschedule or leave alone |
| `OutboxStore.RoomOutbox.DeleteDeliveryIfCurrent` | apps/realtime/src/index.ts:565-572 | only an entry that is still the attempted delivery is deleted |
| `OutboxStore.RoomOutbox.ScheduleAlarmAt` | apps/realtime/src/index.ts:574-577 | the alarm only ever moves earlier |
| `OutboxStore.RoomOutbox.DueDeliveries` | apps/realtime/src/index.ts:351-356 | the loop over the listed queue takes exactly the due entries, in order |
| `OutboxStore.RoomOutbox.ScheduleNextDelivery` | apps/realtime/src/index.ts:579-589 | the alarm is removed for an empty queue and set to the earliest wake-up otherwise |
| `OutboxStore.RearmedIsTheEarliest` | apps/realtime/src/index.ts:585-588 | the alarm left behind is the earliest schedule, or 30 s from now if an entry without one is queued and that is earlier; none exactly for an empty queue |
| `Outbox.ConcludedTouchesItsOwn` | apps/realtime/src/index.ts:514-551 | concluding an attempt changes its own key only, and only while the entry is still that delivery |
| `Outbox.StepKeepsLogSound` | apps/api/src/repository.ts:441-444 | every step keeps: no id twice in the log, and every logged event as it was recorded |
| `Outbox.StepLosesNothing` | apps/realtime/src/index.ts:506-572 | every step keeps: the newest delivery of each key is queued, logged or discarded as itself |
| `Outbox.StepStrandsNothing` | apps/realtime/src/index.ts:351-358 | every step keeps: between alarm passes each entry is covered by an alarm or an attempt |
| `Outbox.StepKeepsSends` | apps/realtime/src/index.ts:531-551 | every step keeps: until an alarm pass reads a delivery while an attempt of it is in flight, each copy knows how often it was sent |
| `Outbox.StepKeepsWaits` | apps/realtime/src/index.ts:531-551 | every step keeps: until then, a delivery has waited exactly as long as the backoff says for its count |
| `Outbox.RunKeeps` | apps/realtime/src/index.ts:476-589 | all of these over every run of records, alarms, fetches and ingests in any interleaving |
| `Outbox.LoggedAtMostOnce` | apps/api/src/application.ts:1145-1154 | every event is in the API's log at most once and unaltered, under any retries and overlapping sends |
| `Outbox.TheLogIsWhatWasIngested` | apps/api/src/repository.ts:441-444 | over every run the log holds exactly the deliveries of which the API handled a copy |
| `Outbox.NewestIsNeverLost` | apps/realtime/src/index.ts:486-572 | every event that no later snapshot of the same document or board replaces is queued, logged once, or discarded as that delivery |
| `Outbox.OneSnapshotEach` | apps/realtime/src/index.ts:457-497 | in every reachable state the queue holds one snapshot of each document and of the board at most |
| `Outbox.DrainedRunsLogEverythingOnce` | apps/realtime/src/index.ts:476-563 | a run with no discards that drained its queue has logged every such event exactly once |
| `Outbox.NoDeliveryIsStranded` | apps/realtime/src/index.ts:351-358 | outside an alarm pass a scheduled entry has an alarm no later, an unscheduled one an alarm or an attempt in flight |
| `Outbox.StepKeepsAccounts` | apps/realtime/src/index.ts:506-551 | every step keeps: the sends and waits of a delivery exceed what its copies count by at most what its first attempt can set back |
| `Outbox.SendsAreBounded` | apps/realtime/src/index.ts:502-551 | however attempts overlap, a delivery is sent at most 15 times and waits at most 7,380,000 ms; a snapshot 8 times and 3,690,000 ms |
| `LateFailures.FifteenSendsHappen` | apps/realtime/src/index.ts:351-358 | for every chat message and edit there is a run that sends the message 15 times |
| `Outbox.RetriesAreBounded` | apps/realtime/src/index.ts:531-551 | the stored count is at most seven; until an alarm pass reads a delivery while an attempt of it is in flight, it is sent at most 8 times and waits at most 3,690,000 ms |
| `Outbox.UpdatesReplaceTheSnapshot` | apps/realtime/src/index.ts:486-497 | right after an update the queue holds exactly that update, and of its predecessor only when it was first queued |
| `Outbox.SnapshotScheduleInClosedForm` | apps/realtime/src/index.ts:486-497 | in every reachable state a queued snapshot is the last of the updates at u1..un since the key was absent, and until it fails it is due at min(un + 2000, u1 + 10000) |
| `Outbox.NewestBoardIsQueuedOrDiscarded` | apps/realtime/src/index.ts:457-474 | no board is logged: the newest is still queued as that delivery or was discarded as it |
| `Retries.DiscardedIff` | apps/realtime/src/index.ts:133-134 | over every run a delivery is discarded if and only if an attempt of it got a status outside 200..299 below 500 that is not 408, 425 or 429, or a copy that had failed seven times failed again |
| `Retries.PassingFailuresAreRetried` | apps/realtime/src/index.ts:514-551 | in a run without such a status, whatever is discarded has been sent eight times |
| `Retries.SettledInClosedForm` | apps/realtime/src/index.ts:506-563 | in every reachable state, what a settled attempt makes of the queue: nothing if replaced, else gone by success, a final status or the eighth failure, or counted once more and due after its backoff |
| `Retries.AllButBoardsCanBeLogged` | apps/api/src/application.ts:1145-1154 | in every reachable state the API can log whatever is on its way to it, except a board |
| `Retries.SnapshotIsExact` | apps/realtime/src/index.ts:351-356 | a firing alarm takes exactly the entries without a schedule or with one no later than now |
| `Retries.TheAlarmTakesWhatIsDue` | apps/realtime/src/index.ts:351-356 | in every reachable state a firing alarm takes an entry that failed if and only if its last failure is its backoff ago; one that did not, if it is an event of its own or its updates make it due |
| `Retries.NothingIsSentEarly` | apps/realtime/src/index.ts:486-551 | over every run, what the alarm sends next was due when it fired: last failure plus backoff, or min(un + 2000, u1 + 10000) for a snapshot |
| `MeshClient.RoomClient.OnFrame` | apps/web/components/room-workspace.tsx:606-637 | what a client knows and is connected to after a frame |
| `MeshClient.RoomClient.SyncPeers` | apps/web/components/room-workspace.tsx:535-556 | afterwards known peers and mesh are exactly the others present, connected to as initiator or not by the id order |
| `MeshClient.RoomClient.DropDeparted` | apps/web/components/room-workspace.tsx:541-550 | the first loop disconnects exactly the known peers that left |
| `MeshClient.RoomClient.AddArrived` | apps/web/components/room-workspace.tsx:551-555 | the second loop connects to exactly the ones not known yet, each once |
| `MeshClient.OnlySignalsBeforeReady` | apps/web/components/room-workspace.tsx:535-637 | until the room is ready presence is ignored, and the peers are exactly those who signalled |
| `Room.RoomDurableObject.Visit` | apps/realtime/src/index.ts:235-236 | a request sets the room id in memory and in storage |
| `Room.RoomDurableObject.Restore` | apps/realtime/src/index.ts:203-216 | what the constructor of a woken object puts in memory: events, room id, board and participants |
| `Room.RoomDurableObject.RestoreParticipants` | apps/realtime/src/index.ts:418-425 | participants are rebuilt from the enumeration, less the closing socket |
| `Room.RoomDurableObject.IsUserPresent` | apps/realtime/src/index.ts:361-361 | true exactly if some connection belongs to the user |
| `Room.RoomDurableObject.Broadcast` | apps/realtime/src/index.ts:396-416 | every open socket is sent the frame once; one that is closed but enumerated takes nothing |
| `Room.RoomDurableObject.Record` | apps/realtime/src/index.ts:476-479 | the last 250 events, in memory and in storage |
| `Room.RoomDurableObject.AcceptSocket` | apps/realtime/src/index.ts:360-394 | the new participant, its greeting with people, events and board, the presence frame to all, and joined only for a user not present before |
| `Room.RoomDurableObject.WebSocketClose` | apps/realtime/src/index.ts:319-337 | the participant gone, the presence frame to the rest, and left only for a user's last device, lingering socket or not |
| `Room.RoomDurableObject.ShareScreen` | apps/realtime/src/index.ts:282-315 | the attachment and the participant changed together, recorded, and presence sent again |
| `Room.RoomDurableObject.Say` | apps/realtime/src/index.ts:289-314 | a message is sent to all and recorded |
| `Room.RoomDurableObject.Relay` | apps/realtime/src/index.ts:291-301 | a signal is sent to the one connection it names, with the sender's, and to no other |
| `Room.RoomDurableObject.ApplyWhiteboard` | apps/realtime/src/index.ts:440-451 | the board after a segment or a clear, at most 4000 segments, in memory and in storage |
| `Room.StepKeeps` | apps/realtime/src/index.ts:265-425 | every step keeps sockets, participants and recipients the same, and memory equal to storage |
| `Room.HibernationIsInvisible` | apps/realtime/src/index.ts:203-216 | after every run, losing memory and constructing again changes nothing, the room id included; events are the last 250, the board the last 4000 since the last clear |
| `Room.GreetingsShowTheRoom` | apps/realtime/src/index.ts:373-385 | after every run, whoever joins is first sent everybody connected, the last 100 events ever recorded and the board since its last clear |
| `Room.PresenceRecordAlternates` | apps/realtime/src/index.ts:319-394 | each user's record alternates from joined, and ends with joined exactly while a device is connected |
| `Room.ClientsKnowTheRoom` | apps/web/components/room-workspace.tsx:535-556 | a client that has handled all its frames knows, and is connected to, exactly the others connected |
| `Room.EveryPairHasOneInitiator` | apps/web/lib/peer-mesh.ts:101-107 | of any two such clients exactly one initiated, and it is the impolite one |
| `Traffic.SocketsAreToldEverything` | apps/realtime/src/index.ts:282-315 | over every run, counted off its steps: each open socket was told exactly the signals addressed to it and all that was said, shared and drawn since it connected, in order, and last saw a list of everybody now connected |
| `Traffic.ConnectedAreThoseWhoCame` | apps/realtime/src/index.ts:319-425 | over every run, sockets and participants are those who connected and did not close, sharing as they last said |
| `Traffic.TheRecordIsWhatHappened` | apps/realtime/src/index.ts:289-314 | over every run, the posts recorded are those said and shared, in order, the board's history is what was drawn, the room id is the last one visited |
| `RateLimits.MemoryWindows.IncrementWindow` | apps/api/src/cache.ts:99-109 | the in-process window after a call, and the other keys unchanged |
| `RateLimits.ScriptAlwaysEnds` | apps/api/src/cache.ts:139-147 | from any state, one run of the Redis script leaves a counter that will end, or none |
| `RateLimits.ImplementationsAgree` | apps/api/src/repository.ts:754-774 | memory, MongoDB and Redis report the same counts and reset times for every call sequence, whatever vanishes once expired |
| `RateLimits.RateLimiter.Admit` | apps/api/src/application.ts:208-244 | who is admitted, what both stores then hold, and a Retry-After of at least one second that reaches the reset |
| `RateLimits.WindowsAreBounded` | apps/api/src/repository.ts:462-472 | one store admits at most the limit in one window |
| `RateLimits.IntervalsAreBounded` | apps/api/src/application.ts:208-244 | in any interval one window long each store admits at most twice the limit, the two together four times, however the cache fails |
| `RateLimits.BoundsAreReached` | apps/api/src/application.ts:208-219 | for every limit and window there is a run in which each store admits twice the limit in one interval |
| `RateLimits.OneStoreAdmitsTwice` | apps/api/src/application.ts:209-218 | if no request of an interval falls back, or all do, the two stores together admit at most twice the limit in it |
| `TurnCache.IceServerProvider.Request` | apps/api/src/turn.ts:85-94 | the request a call is answered with, and the entries kept, dropped, evicted and added |
| `TurnCache.IceServerProvider.DropExpired` | apps/api/src/turn.ts:91-93 | the loop drops exactly the expired entries |
| `TurnCache.IceServerProvider.Fail` | apps/api/src/turn.ts:135-137 | what the cleanup of a failed request removes |
| `TurnCache.CacheIsBoundedAndOrdered` | apps/api/src/turn.ts:85-132 | over every run: at most 1000 entries, one per user, in the order they expire |
| `TurnCache.AnswersStayValid` | apps/api/src/turn.ts:26-34 | every answer is the user's own request with at least 30 minutes of its four hours left |
| `TurnCache.EntryStaysIff` | apps/api/src/turn.ts:91-136 | over any run before it expires, an entry stays exactly if no step evicted it from a full cache and its request did not fail |
| `TurnCache.CallsShareOneRequest` | apps/api/src/turn.ts:87-132 | whatever users call and whatever fails in between, until the entry expires a further call of the user shares its request exactly if no step evicted the entry and the request did not fail |
| `TurnCache.EvictionIsSoonestFirst` | apps/api/src/turn.ts:91-94 | a live entry is lost only in a full cache, it is the one to expire first, and all others stay |
| `TurnCache.FailureRemovesItsOwn` | apps/api/src/turn.ts:135-137 | a failed request removes its own entry if it is still there, and never a newer one |
| `RoomHistory.SortSorts` | apps/api/src/repository.ts:446-448 | sorting orders a log by time and keeps exactly its events |
| `RoomHistory.SortFilter` | apps/api/src/repository.ts:446-448 | selecting before the stable sort comes to the same as selecting after it |
| `RoomHistory.ListIsASlice` | apps/api/src/repository.ts:445-451 | a listing is the last events before the cursor of the room's sorted log |
| `RoomHistory.PageIsASlice` | apps/api/src/application.ts:1108-1117 | a page is the newest events before its cursor, and says rightly whether there are older ones |
| `RoomHistory.CursorGoesBack` | apps/api/src/application.ts:1111-1116 | the next cursor leaves at most the events before this page, so a walk ends |
| `RoomHistory.WalkIsCompleteIff` | apps/api/src/application.ts:1108-1117 | a walk rejoins to exactly the room's log if and only if no page boundary separates two events of one time |
| `RoomHistory.DistinctTimesAreEnough` | apps/api/src/repository.ts:445-451 | with pairwise distinct times nothing is skipped, whatever the page size |
| `RoomHistory.TiesAreSkipped` | apps/api/src/repository.ts:447-447 | a log of two events of one time of which a walk never shows the older |
| `RoomHistory.WalksAreOrdered` | apps/api/src/application.ts:1108-1117 | every page is sorted, no longer than asked for, strictly older than the page before it, and only of the room |
| `Memberships.FindIsExact` | apps/api/src/repository.ts:340-344 | searching finds an entry exactly if the user stands in that place, with that standing |
| `Memberships.CreateIsExact` | apps/api/src/repository.ts:353-355 | creating with a fresh id takes one free seat and changes nothing else |
| `Memberships.UpdateIsExact` | apps/api/src/repository.ts:345-347 | updating what was found changes one standing and nothing else |
| `Memberships.DeleteIsExact` | apps/api/src/repository.ts:381-386 | deleting what was found frees one seat and changes nothing else |
| `Memberships.DistinctMeansUnique` | apps/api/src/repository.ts:378-380 | no two entries share an id, nor a user and a place |
| `Roles.StepKeeps` | apps/api/src/application.ts:556-1428 | every request keeps the invariant and all owners; a refused one changes nothing |
| `Roles.InitialMembersAreDistinct` | apps/api/src/application.ts:986-986 | a new room's first members are the ids given, each once, without the caller |
| `Roles.OneOwnerEach` | apps/api/src/application.ts:556-1428 | after any requests every organization and room has exactly one owner, room members are organization members, and a room's owner manages it |
| `Roles.OwnersNeverChange` | apps/api/src/application.ts:1332-1333 | whoever owns an organization or a room still does after any later requests, and nobody else |
| `Roles.AdminsAreThePromoted` | apps/api/src/application.ts:1188-1348 | after any requests, the administrators are exactly those the owner once made one and nobody entitled to has demoted since |
| `Roles.LastAdminIsLostIff` | apps/api/src/application.ts:1336-1346 | the last administrator is lost exactly when somebody else who manages members demotes the only one |
| `Roles.AdminsLeaveAnAdmin` | apps/api/src/application.ts:1336-1346 | no request of an administrator leaves the organization without one |
| `Roles.DelegatesCanRemoveTheLastAdmin` | apps/api/src/policy.ts:18-21 | a run in which a member with canManageMembers does |
| `Roles.PolicyIsByRole` | apps/api/src/policy.ts:12-22 | who may do what in an organization, by role and attribute |
| `Roles.RoomPolicyIsByRole` | apps/api/src/policy.ts:36-71 | who may read, join, write and manage a room, by role, attribute, visibility and classification |
| `Roles.OnlyManagersChangeStandings` | apps/api/src/application.ts:1188-1348 | after any requests, a change of anybody's standing is the founding, a use of the code, or comes from the owner, an administrator or a delegate |
| `Roles.OnlyManagersChangeRooms` | apps/api/src/application.ts:970-1433 | after any requests, a new room comes from one of those who may open rooms, and a change of a room's members from one who manages it |
| `Roles.DelegatesWereAddedAsSuch` | apps/api/src/application.ts:1204-1220 | after any requests, those with an attribute are exactly those admitted by being added with it |
| `Roles.OthersManageNothing` | apps/api/src/application.ts:1188-1348 | whoever is not the owner, was not promoted and left so, and was not added as a delegate is refused every change of a standing with 403 |
| `Roles.OthersManageNoRooms` | apps/api/src/application.ts:1390-1433 | such a member who does not own the room is refused every change of its members with 403 |
| `Roles.OthersOpenNoRooms` | apps/api/src/application.ts:970-985 | such a member without that attribute is refused every new room with 403 |
| `Roles.RefusalsAreExact` | apps/api/src/application.ts:593-1433 | after any requests, each way of being refused, with its status and code, has exactly its own cause, stated by role, attribute, membership and room; everything else is done |
| `Roles.MembersAreTheAdmitted` | apps/api/src/application.ts:556-1228 | after any requests, members are exactly those who created the organization, used its code, or were added by somebody who then managed members |
| `Roles.DelegationsNeverChange` | apps/api/src/application.ts:1347-1348 | nobody who belongs ceases to, and what was delegated stays, whatever is requested later |
| `Roles.NewRoomsHold` | apps/api/src/application.ts:974-1024 | if the caller may create it and everybody else named belongs, a new room holds the caller as owner and the others as members, and nobody else; otherwise nothing changes |
| `Roles.RoomMembersAreThoseLetIn` | apps/api/src/application.ts:970-1428 | after any requests, those with a role in a room are exactly those it was created with or a manager added, and no manager has removed since |
| `Roles.RemovingUndoesAdding` | apps/api/src/application.ts:1390-1428 | removing whom one has just added to a room is always allowed and restores everything |
| `OrganizationApi.Api.CreateOrganization` | apps/api/src/application.ts:556-591 | the route computes its step, on entries with unique ids and seats |
| `OrganizationApi.Api.Join` | apps/api/src/application.ts:593-630 | as above; unknown codes and members are refused |
| `OrganizationApi.Api.AddMember` | apps/api/src/application.ts:1188-1228 | as above, with its four refusals in order |
| `OrganizationApi.Api.ChangeRole` | apps/api/src/application.ts:1321-1348 | as above, with its five refusals in order |
| `OrganizationApi.Api.CountOtherAdmins` | apps/api/src/application.ts:1338-1340 | the count is positive exactly if somebody else is an administrator |
| `OrganizationApi.Api.GetInitialMembers` | apps/api/src/application.ts:986-990 | the deduplicated ids, and whether all of them are members |
| `OrganizationApi.Api.CreateRoom` | apps/api/src/application.ts:970-1025 | as above; every initial member is added once |
| `OrganizationApi.Api.OpenRoom` | apps/api/src/application.ts:997-1024 | the room, its owner's entry, and one entry for each other member, on unique ids and seats |
| `OrganizationApi.Api.AddRoomMember` | apps/api/src/application.ts:1390-1412 | as above, with its four refusals in order |
| `OrganizationApi.Api.RemoveRoomMember` | apps/api/src/application.ts:1414-1433 | as above; the owner is never removed |
| `FileTransfer.ChunksCarryTheContent` | apps/web/lib/peer-mesh.ts:137-140 | the chunks of a file carry exactly its bytes |
| `FileTransfer.ChunksAreFull` | apps/web/lib/peer-mesh.ts:134-138 | there are ceil(size / 16384) chunks, all full but perhaps the last, none empty |
| `FileTransfer.TheLatestHeaderCounts` | apps/web/lib/peer-mesh.ts:332-355 | an end of file hands over the latest header's name and type with exactly the data since, whatever came before |
| `FileTransfer.EndsWithoutAHeader` | apps/web/lib/peer-mesh.ts:344-350 | an end before any header hands over all data so far under the default name and type |
| `FileTransfer.DisconnectedPeersKeepNothing` | apps/web/lib/peer-mesh.ts:332-355 | once the peer is gone nothing that comes in is kept, and each end hands over an empty default file |
| `FileTransfer.RoundTrip` | apps/web/lib/peer-mesh.ts:129-143 | from any leftover state a whole transfer hands over one identical file |
| `FileTransfer.ExactlyTheCompletedArrive` | apps/web/lib/peer-mesh.ts:330-357 | over any sequence of transfers, some abandoned anywhere, exactly the completed files arrive, in order |
| `OverlappingTransfers.OverlappingTransfersMix` | apps/web/lib/peer-mesh.ts:335-351 | any overlap of two transfers hands over two files of the later header's name and type: the data from that header to the first end, and to the second |
| `OverlappingTransfers.RunsAreTheTransfer` | apps/web/lib/peer-mesh.ts:136-141 | what is sent between two awaits - header, single chunks, the last one with the end - makes up the transfer |
| `OverlappingTransfers.SchedulesInterrupt` | apps/web/lib/peer-mesh.ts:136-141 | in any overlap the sender can produce, one file's header comes before the other file's last chunk |
| `OverlappingTransfers.IntactIffApart` | apps/web/lib/peer-mesh.ts:129-143 | unless one file is a shorter chunk-aligned front of the other under the same name and type, what the sender interleaves hands both over intact if and only if one transfer lies wholly before the other |
| `OverlappingTransfers.ChunkFrontsMayOverlap` | apps/web/lib/peer-mesh.ts:330-357 | every such pair has an overlap the sender can produce that hands both over intact |
| `OverlappingTransfers.OverlapsAlwaysHarmIff` | apps/web/components/room-workspace.tsx:889-905 | all overlaps the sender can produce of two given files do harm exactly if neither is such a front of the other |
| `FileTransfer.FileReceiver.OnMessage` | apps/web/lib/peer-mesh.ts:332-355 | what each message does to the peer's entry and to the files handed over |
| `FileTransfer.FileSender.SendToAll` | apps/web/lib/peer-mesh.ts:136-136 | each recipient is sent the message once, unless a closed channel throws |
| `FileTransfer.FileSender.SendChunks` | apps/web/lib/peer-mesh.ts:137-140 | the loop sends all chunks to everybody exactly if nothing fails, and a front of them otherwise |
| `FileTransfer.FileSender.SendFile` | apps/web/lib/peer-mesh.ts:129-143 | every open channel gets the whole transfer exactly if no read fails and none closes; otherwise each has a front of it |

## Left out

- Outbox.NoDeliveryIsStranded: only for runs without a crash, because a fresh event that is no snapshot is stored without an alarm.
- FileTransfer.ExactlyTheCompletedArrive: transfers on one channel do not overlap; the overlap of two is characterised by `OverlappingTransfers.IntactIffApart`, that of three or more is not.
- RateLimits.IntervalsAreBounded: one window length per key and no eviction of live counters by a cache under memory pressure.
- RateLimits.ImplementationsAgree: one clock for all stores and a script that takes no time; command timeouts are outcomes of `Admit`.
- PeerLink.Peer.FinishInstall: the awaits inside the candidate loop are one step, since the operations chain is busy throughout.
- Room.ClientsKnowTheRoom: participants are a set, so neither their order nor username, role and time of joining are modelled; frames are those of the open socket, not of an earlier one.
- RoomHistory.WalksAreOrdered: the log is fixed while it is walked, and a limit is at least one, as the route demands.
- Roles.OneOwnerEach: ids are positions and counters instead of UUIDs; rotating join codes, invite settings and the calendar change no membership and are not steps.
- Negotiation.EveryNegotiationSettles: ICE itself, restarts after failure beyond the new negotiation they trigger, and descriptions the browser rejects.
- Deliveries without an id from earlier versions, and a deployment without a persistence webhook.
- Room.RoomDurableObject.Relay: signals name a connection that is present; the fallback to user ids for clients of earlier versions is not modelled.
- PeerLink.Peer.FinishAnswer: an answering `setLocalDescription` does not fail, as the browser guarantees.
- The fallback of media to track order for clients of earlier versions.
- Ticket verification, the viewer check on messages, message validation, cursors, heartbeats and the editor's frames: they change none of the state above.
- A data channel's text frame that is no JSON, which the handler does not catch; normalisation of a file's type by the browser.
- Media tracks, session descriptions' contents, TURN requests, the Redis driver, MongoDB's query planning and races inside one API handler.
- Accounts, sessions, tokens, passwords, OAuth, mail, audit records, logging, and all other user interface.
