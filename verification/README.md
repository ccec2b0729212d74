# Verified models of TaskHandoff

TaskHandoff is a control plane with mobile, web and command-line clients. This project models the
parts of it in which ordering decides correctness and proves what they keep: refresh-credential
rotation that survives crashes, replicated session streams, bounded live timelines, ownership of
native browser contexts, the shared connection of the mobile runtime, the fence around operation
approvals, coalesced refreshes, a serialised render queue, the encrypted relay channel with its
codecs, and the checker that guards the package boundaries of the workspace.

`dafny verify dfyconfig.toml` checks everything.

## How the models are built

* Code that updates fields is a class with those fields. Asynchronous code is cut at its awaits:
  every call, timer, callback and continuation is one method, and one action of a step function
  over the whole state. The method's `ensures` equates the new state with that step; the lemmas
  then speak about all runs, that is about every interleaving of the actions. An action that is
  not possible in a state leaves it unchanged.
* Loops of the source are loops here, with invariants, proved against a specification function.
* What the steps mean is said again without their functions: in terms of tabs, topics, domains,
  sessions, requests and package names, before and after (`...Calls.dfy`, `BoundaryAnswers.dfy` and
  the lemmas named `...Means` and `...Iff`).
* Where the source promises more than its code keeps, the code is kept. A lemma gives the input
  that shows it and another one states exactly when the promise holds (see "Findings").

| file | what it models |
|---|---|
| `RefreshRotation.dfy`, `RefreshCalls.dfy` | account sessions that share one stored refresh credential, the recovery server, and who gets what from a refresh |
| `AiSessionReducer.dfy`, `AiSessionReplica.dfy`, `ReplicaCalls.dfy`, `AiSessionConvergence.dfy` | the stream reducer, the mobile replica, what each answer does to it, and its convergence to the server's log |
| `TimelineBuffer.dfy`, `TimelineStore.dfy`, `TimelineRuns.dfy`, `TimelineCalls.dfy`, `TimelineMerge.dfy` | bounded live timelines over runs of the store, and their merge into snapshots |
| `BrowserContexts.dfy`, `BrowserCalls.dfy` | native browser contexts per control plane and instance, and what each call does to them |
| `ConnectionCoordinator.dfy`, `CoordinatorGuarantees.dfy`, `CoordinatorProgress.dfy`, `CoordinatorDomains.dfy`, `CoordinatorCalls.dfy` | the mobile connection coordinator: its attempts, whether they get on, which domains they serve, and what each call does |
| `ApprovalRegister.dfy`, `ApprovalFence.dfy` | the operation-approval register and the client's fence |
| `DirectoryRefresh.dfy` | coalesced directory refreshes |
| `RenderQueue.dfy`, `HtmlEscape.dfy` | the Mermaid render queue and HTML escaping of the web theme |
| `RelayCodec.dfy`, `Base64Url.dfy`, `RelayChannel.dfy` | nonces, frames, base64url, and the relay channel's sequencing |
| `ModuleSpecifiers.dfy`, `SortedLines.dfy`, `PackageBoundaries.dfy`, `BoundaryGuarantees.dfy`, `BoundaryAnswers.dfy` | the package-boundary checker and what it answers |
| `OrderedMap.dfy` | JavaScript's insertion-ordered `Map`, optional values |

## Findings

Promises that the code keeps only under a condition; each has a counterexample and the condition.
Short names stand for apps/mobile/src/control-plane/cloud-account.ts,
apps/mobile/src/ai-sessions/store.ts, apps/mobile/src/browser/controller.ts,
apps/mobile/src/control-plane/use-mobile-control-plane-runtime.ts ("runtime"),
apps/mobile/src/approval-center/controller.ts, apps/mobile/src/directories/controller.ts and
apps/mobile/src/control-plane/relay-channel.ts.

* Rotation: a copy of an older rotation request that is delivered late revokes the device session,
  as scripted in apps/mobile/__tests__/cloud-account-session-test.ts:224-231 (`RevokedIff`,
  `LateCopyRevokes`). A session that still holds cached tokens when the stored credential is gone
  presents them, and is revoked exactly when they are out of date (cloud-account.ts:284-287;
  `MissingStoreRevokesIff`, `LogoutLeavesStaleSession`). The fallback for servers without the
  recovery route is revoked exactly when an attempt reaches the server after one whose response was
  lost (cloud-account.ts:270-278; `LegacyRevokedIff`).
* Timelines: an item of a turn that the store keeps returns exactly when 1000 further ids of the turn
  have arrived since (ai-sessions/store.ts:435), and a turn that the store has dropped, behind 500
  other turns (ai-sessions/store.ts:440-444) or 500 other stored timelines
  (ai-sessions/store.ts:901-906), shows only what arrives from then on (`KeptTurnsAreExactIff`,
  `KeptIff`, `EvictedIdReturns`, `DroppedTurnReturns`). The merge documented as preserving both
  streams' order preserves the live order exactly when both list their common ids in the same order
  (packages/protocol/src/ai-sessions.ts:1809-1835; `OrderConstraints`, `LiveOrderLost`).
* Session streams: the revision of a stream falls exactly when an instance that is not on the stream
  is brought back to it at a lower revision than it was shown at; the comparison needs an existing
  entry of the same stream (ai-sessions/store.ts:293-297, :937-938; `RevisionFallsIff`,
  `ReplicaRevisionFallsIff`, `RevisionFallsAcrossRemoval`).
* Browser contexts: clearing a profile releases only the contexts whose instance has a tab
  (browser/controller.ts:112-113, apps/mobile/src/browser/store.ts:65-72). Without any new demand an
  instance has a context again exactly when it had no tab and either a context or a `create` that
  still waited (`ClearedIff`, `ClearSettles`, `TablessContextSurvives`). The second comes about when
  a failing `create` drops the last tab without a release (browser/controller.ts:39-42;
  `WaitingCreateSurvives`).
* Connection: reconciliation compares keys only (runtime:280-282), so another object under an active
  key is not noticed, and a round of starts that reads the domains before a queued reconciliation
  (runtime:320-329) can keep one that has gone since (`SameKeyNotNoticed`,
  `ReadAheadKeepsUnregistered`); the active domains are the registered ones exactly when neither has
  happened since they were last read (`ActiveIsDesiredIff`, `RegisterKeepsDesiredIff`). A domain
  registered during an attempt does not make its topic syncing again (runtime:295-298;
  `PendingRegistrationNotSyncing`). An attempt whose domains all went away ends idle and stays the
  current one (runtime:457-462); a domain registered afterwards is only marked pending
  (runtime:284-299), and stays unconnected until a forced reconciliation, such as a session renewal,
  or a change of the environment (`NothingUnderWayIff`, `RegistrationRestartsIff`,
  `StrandedForGood`, `IdleAttemptStrandsDomains`).
* Approvals: an event of the previous register generation takes the client back to it
  (approval-center/controller.ts:268-274; `OldGenerationRevives`); of two overlapping refreshes the
  older answer can do the same (approval-center/controller.ts:532-562; `GoesBackIff`,
  `OverlappingRefreshGoesBack`). An event that skips changes is accepted
  (approval-center/controller.ts:275-276): the client shows what is pending exactly when what it
  missed since its last snapshot made no difference (`SkippedChange`, `ExactIff`).
* Directory refresh: a request queued behind a refresh of an earlier epoch is not started when that
  refresh settles (directories/controller.ts:312-314; `StrandsIff`, `OnlyStrandedIsOutstanding`,
  `RequestStranded`).
* Relay channel: a message that is too large uses up a sequence number (relay-channel.ts:265-267),
  and the peer closes the channel at the next frame (`ContiguousIff`, `RefusalBreaksChannel`). The
  flags are outside the sealed payload, which is unpacked with them (relay-channel.ts:386-388): a
  frame whose flag was changed closes the channel or is read the other way (`DeliveredIsPrefix`,
  `ChangedFlag`).
* Package boundaries (bin/check-package-boundaries.js): a one-star export key also accepts subpaths
  in which its ends overlap, and what follows a second star is ignored (lines 90-91; `OneStarKey`,
  `OverlapAccepted`, `SecondStarIgnored`); with packages of the same name the report depends on
  directory order (line 165; `OrderMattersForSharedNames`).

## Model

| member | source | states |
|---|---|---|
| RefreshRotation.RecoveryServer.Handle | apps/mobile/__tests__/cloud-account-session-test.ts:221-235 | commits a rotation once, answers the identical retry again, revokes on any other old credential |
| RefreshRotation.FamilyKept | apps/mobile/src/control-plane/cloud-account.ts:303-307 | a next credential keeps the part before the first dot and can itself be rotated again |
| RefreshRotation.AccountSessions.RestoreSession | apps/mobile/src/control-plane/cloud-account.ts:164-171 | restores what the store holds, fails without a stored credential |
| RefreshRotation.AccountSessions.RefreshAccessToken | apps/mobile/src/control-plane/cloud-account.ts:202-221 | joins the flight under way or registers one before any read; `RefreshMeans` says who is then in which flight |
| RefreshRotation.AccountSessions.FreshestCredential | apps/mobile/src/control-plane/cloud-account.ts:284-290 | the flight works on the stored credential, or on the cached one when nothing is stored |
| RefreshRotation.AccountSessions.PersistIntent | apps/mobile/src/control-plane/cloud-account.ts:238-260 | persists the stored or a fresh intent before the request; a malformed credential fails without a write |
| RefreshRotation.AccountSessions.ReceiveReply | apps/mobile/src/control-plane/cloud-account.ts:261-282 | an accepted reply installs the credential without the intent; a rejection clears the store and the owner's session |
| RefreshRotation.AccountSessions.ResolveFlight | apps/mobile/src/control-plane/cloud-account.ts:222-236 | the flight ends and its result is due to every session that joined it |
| RefreshRotation.AccountSessions.InstallJoinedSession | apps/mobile/src/control-plane/cloud-account.ts:212-216 | a joined session installs the flight's result |
| RefreshRotation.AccountSessions.LogoutSession | apps/mobile/src/control-plane/cloud-account.ts:181-184 | logout removes the stored credential and this session's tokens only |
| RefreshRotation.StepKeepsInv | apps/mobile/src/control-plane/cloud-account.ts:202-290 | every step other than a logout or a revocation keeps: the store holds the server's current credential, as credential or as the next one of an intent equal to the committed rotation |
| RefreshRotation.RotationSafety | apps/mobile/__tests__/cloud-account-session-test.ts:214-252 | over all runs with crashes, lost and repeated requests, lost responses and any number of sessions, but no copy delivered after the exchange that completed it: never revoked, and the store always holds the current credential |
| RefreshRotation.RevokesIff | apps/mobile/__tests__/cloud-account-session-test.ts:224-231 | a delivered copy revokes if and only if the server has committed a later rotation |
| RefreshRotation.RevokedIff | apps/mobile/__tests__/cloud-account-session-test.ts:224-231 | a run without logout is revoked if and only if it delivers a copy older than the last committed rotation |
| RefreshRotation.PresentsNothingStale | apps/mobile/__tests__/cloud-account-session-test.ts:142-160 | what a flight sends starts at the current credential or is the committed rotation, and is accepted |
| RefreshRotation.OwnerGetsTheResult | apps/mobile/src/control-plane/cloud-account.ts:279-281 | the owner's session and the store hold the server's current credential once the reply is installed |
| RefreshRotation.JoinedCallersGetTheResult | apps/mobile/__tests__/cloud-account-session-test.ts:162-212 | every session that joined before the flight was over gets that credential, and its install leaves the store as it is; that a session which asks is among them is `AskedIsAnswered` |
| RefreshRotation.DueStays | apps/mobile/src/control-plane/cloud-account.ts:212-216 | a joined session's result is lost to nothing but a restart |
| RefreshRotation.ExchangeCompletes | apps/mobile/src/control-plane/cloud-account.ts:256-282 | a delivered and answered rotation ends with store, session and server at the next credential |
| RefreshRotation.RestartRecovers | apps/mobile/__tests__/cloud-account-session-test.ts:214-252 | after a restart in any state one undisturbed rotation recovers; a rotation already committed is completed, not repeated |
| RefreshRotation.LateCopyRevokes | apps/mobile/__tests__/cloud-account-session-test.ts:224-231 | counterexample to unconditional safety: a late copy of the previous rotation |
| RefreshRotation.MissingStoreRevokesIff | apps/mobile/src/control-plane/cloud-account.ts:284-287 | with nothing stored, a refresh is revoked if and only if the cached tokens are out of date |
| RefreshRotation.OthersAreStale | apps/mobile/src/control-plane/cloud-account.ts:205-208 | a rotation leaves every other session's cached tokens out of date |
| RefreshRotation.LogoutLeavesStaleSession | apps/mobile/src/control-plane/cloud-account.ts:181-184 | counterexample: logout of one session, refresh of another |
| RefreshRotation.LegacyRevokedIff | apps/mobile/src/control-plane/cloud-account.ts:270-278 | the legacy fallback is revoked if and only if an attempt is delivered after one whose response was lost |
| RefreshCalls.RefreshMeans | apps/mobile/src/control-plane/cloud-account.ts:205-221 | a session that asks is in the flight under way, with everything else unchanged, or owns a new flight that works on its cached tokens and has read nothing yet |
| RefreshCalls.AskedIsAnswered | apps/mobile/__tests__/cloud-account-session-test.ts:162-190 | over every run without a restart, with logouts, revocations and any other sessions: whoever asks while a flight is under way has installed that flight's credential, or is due to, once the flight resolves |
| RefreshCalls.DueUntilInstalled | apps/mobile/src/control-plane/cloud-account.ts:211-216 | a result stays due until it is installed in the session and the store, whatever else happens short of a restart |
| RefreshCalls.InstallMeans | apps/mobile/src/control-plane/cloud-account.ts:212-215 | a joined session installs the result that is due to it, once, and what is due to others stays |
| RefreshCalls.NoLateAnswer | apps/mobile/src/control-plane/cloud-account.ts:261-282 | an attempt that is over gets no answer any more, whichever way it ended |
| RefreshCalls.RejectedMeans | apps/mobile/src/control-plane/cloud-account.ts:222-234 | a rejection takes the stored credential and the owner's session away, ends the flight for those who joined it, and nobody can be restored any more |
| RefreshCalls.FailedMeans | apps/mobile/__tests__/cloud-account-session-test.ts:193-212 | a transport error ends the flight and nothing else |
| RefreshCalls.FailedIsRetried | apps/mobile/__tests__/cloud-account-session-test.ts:193-212 | the next flight, of whichever session, then presents the identical request |
| RefreshCalls.NextCredentialIff | apps/mobile/src/control-plane/cloud-account.ts:303-307 | exactly which credentials can be rotated, and to what |
| RefreshCalls.MalformedEndsFlight | apps/mobile/src/control-plane/cloud-account.ts:303-305 | a credential that cannot be rotated ends the flight without a write |
| RefreshCalls.LogoutMeans | apps/mobile/src/control-plane/cloud-account.ts:181-184 | a logout takes the stored credential and the session's own tokens; other sessions keep theirs |
| AiSessionReducer.ApplyAiSessionStreamEvent | packages/protocol/src/ai-sessions.ts:1501-1541 | the reducer with its loops computes the outcome and the projection of which `AppliedMeans` and `OutcomeIff` say what they are |
| AiSessionReducer.ChangedMeans | packages/protocol/src/ai-sessions.ts:1524-1530 | what the deletions and upserts of an event make of the sessions; that the projection shows them is `AppliedMeans` |
| AiSessionReducer.AppliedIff | packages/protocol/src/ai-sessions.ts:1505-1523 | an event applies exactly when it is the next one of the stream, or a snapshot that is newer or of another stream |
| AiSessionReducer.AppliedMeans | packages/protocol/src/ai-sessions.ts:1524-1541 | after an applied patch or removal the projection itself holds no removed id; each last upsert that is not removed with its payload; the other sessions as before; no other id and none twice; the counts are the numbers of sessions of that status, and stale count and times are as given |
| AiSessionReducer.AppliedKeepsOrder | packages/protocol/src/ai-sessions.ts:1524-1537 | sessions that were shown come first, in their order; new ones follow in the order in which they were given |
| AiSessionReducer.CountIsCardinality | packages/protocol/src/ai-sessions.ts:1531-1537 | a count is the number of places that show the status |
| AiSessionReducer.OutcomeIff | packages/protocol/src/ai-sessions.ts:1505-1523 | duplicate, stale, gap and snapshot-required, each exactly when; a snapshot never leaves a gap |
| AiSessionReplica.AiSessionController.ReplaceSnapshot | apps/mobile/src/ai-sessions/store.ts:253-281 | an incoming snapshot replaces the view except for entries that are older than the existing ones of their stream |
| AiSessionReplica.AiSessionController.NewerEntries | apps/mobile/src/ai-sessions/store.ts:930-951 | keeps the existing entry exactly when it is newer, and reports whether any was kept |
| AiSessionReplica.AiSessionController.ReplaceInstanceEntries | apps/mobile/src/ai-sessions/store.ts:286-309 | removed instances go, received entries are placed, newer existing ones stay |
| AiSessionReplica.AiSessionController.ApplyStreamEvent | apps/mobile/src/ai-sessions/store.ts:325-347 | an applied event replaces its instance's entry; every other outcome changes nothing |
| AiSessionReplica.AiSessionController.OnListResponse | apps/mobile/src/ai-sessions/controller.ts:159-164 | a full list is applied only in the epoch that asked for it |
| AiSessionReplica.AiSessionController.OnSyncResponse | apps/mobile/src/ai-sessions/controller.ts:182-200 | a sync applies its entries, then its deltas, and stops at the first gap or shortfall |
| AiSessionReplica.AiSessionController.OnDeltaResponse | apps/mobile/src/ai-sessions/controller.ts:292-316 | a recovery applies its delta in its own epoch and asks for a full refresh unless it reached the latest revision |
| ReplicaCalls.ListMeans | apps/mobile/src/ai-sessions/controller.ts:159-164 | a list of this epoch takes the place of the view entry by entry, except where the existing entry is later in the same stream or as far with a later event |
| ReplicaCalls.UpdatedMeans | apps/mobile/src/ai-sessions/store.ts:945-949 | the view keeps its own later time exactly when it kept one of its entries |
| ReplicaCalls.InstancesMeans | apps/mobile/src/ai-sessions/store.ts:286-309 | per instance: the last entry received counts unless the existing one is newer; without one it goes if it was removed and stays otherwise |
| ReplicaCalls.PlacedMeans | apps/mobile/src/ai-sessions/store.ts:298-303 | an entry takes the place of the first one of its instance, or the last place |
| ReplicaCalls.EventMeans | apps/mobile/src/ai-sessions/store.ts:325-347 | an event changes the entry of its instance in its place and the time of the view, exactly if it is applied, and asks for a recovery exactly if it leaves a gap or needs a snapshot |
| ReplicaCalls.UntilGapMeans | apps/mobile/src/ai-sessions/controller.ts:306-312 | events are applied one after the other and completely exactly if none breaks the sequence when it comes |
| ReplicaCalls.StopsAtFirstBreak | apps/mobile/src/ai-sessions/controller.ts:306-312 | otherwise exactly those before the first that breaks it |
| ReplicaCalls.SyncContentIff | apps/mobile/src/ai-sessions/controller.ts:189-199 | a sync is content exactly when each of its deltas, on the view that those before it leave, breaks nowhere and reaches its latest revision |
| ReplicaCalls.ReachesIff | apps/mobile/src/ai-sessions/controller.ts:191-197 | a delta reaches its latest revision by its own start or by one of its events |
| ReplicaCalls.DeltaContentIff | apps/mobile/src/ai-sessions/controller.ts:306-315 | a recovery is content exactly when no event breaks and the instance has reached the latest revision |
| ReplicaCalls.DeltaRefused | apps/mobile/src/ai-sessions/controller.ts:302-305 | a delta of another stream, or one that demands a sync, changes nothing |
| ReplicaCalls.StopShutsOut | apps/mobile/src/ai-sessions/controller.ts:110-118 | a stop shows what was shown and shuts out every answer to what was asked before it, in any number and order |
| ReplicaCalls.TooLate | apps/mobile/src/ai-sessions/controller.ts:202-204 | an answer of another epoch or for a cleared profile changes nothing |
| ReplicaCalls.RetiredForGood | apps/mobile/src/ai-sessions/store.ts:736-760 | a cleared profile shows nothing again, whatever arrives |
| AiSessionConvergence.ApplyKeepsFold | packages/control-plane-client/src/ai-session-state.ts:322-344 | the reducer takes a fold of the log and a genuine event to a fold of the log |
| AiSessionConvergence.FindAfterEvent | apps/mobile/src/ai-sessions/store.ts:325-347 | an event changes the addressed instance only, to the reducer's outcome |
| AiSessionConvergence.ReplicaIsFold | apps/mobile/__tests__/ai-session-store-test.ts:519-564 | stream convergence: under any loss, repetition, reordering and delay of events, lists, syncs and recoveries, every entry is the server's log folded up to its revision |
| AiSessionConvergence.LateResponsesIgnored | apps/mobile/src/ai-sessions/controller.ts:202-204 | answers to requests from before a stop change nothing |
| AiSessionConvergence.FallsIff | apps/mobile/src/ai-sessions/store.ts:930-951 | one operation shows a stream below what was shown of it before if and only if the instance is not on the stream and the operation carries the stream at a lower revision |
| AiSessionConvergence.RevisionFallsIff | apps/mobile/__tests__/ai-session-store-test.ts:164-190 | over every sequence of store operations the revision of a stream falls if and only if one of them is such a late return; without one it ends at the highest revision ever shown |
| AiSessionConvergence.RunIsOps | apps/mobile/src/ai-sessions/controller.ts:159-200 | every run of the replica amounts to the store operations of its events, lists, syncs, recoveries and clearing |
| AiSessionConvergence.ReplicaRevisionFallsIff | apps/mobile/src/ai-sessions/controller.ts:159-200 | the same for every run of the replica |
| AiSessionConvergence.RevisionNeverFalls | apps/mobile/__tests__/ai-session-store-test.ts:164-190 | in particular nothing falls while the instance stays on the stream |
| AiSessionConvergence.RevisionFallsAcrossRemoval | apps/mobile/src/ai-sessions/store.ts:293-297 | counterexample: removal and a late list |
| AiSessionConvergence.EventsCatchUp | apps/mobile/src/ai-sessions/controller.ts:306-312 | consecutive events bring an instance to their end or leave it further ahead, without a gap |
| AiSessionConvergence.DeltaIsExact | packages/control-plane/src/control-plane/sessions/ai-session-aggregator.ts:170-194 | the server demands a sync exactly when the stream differs, the client is ahead or the next event is not retained, and otherwise sends exactly the missing events |
| AiSessionConvergence.RecoveryCatchesUp | apps/mobile/__tests__/ai-session-store-test.ts:330-349 | gap, server delta and recovery together bring the instance to the server's revision with the server's content |
| TimelineStore.MobileTimelineStore.ApplyTimelineItem | apps/mobile/src/ai-sessions/store.ts:425-446 | one live item: ignored if remembered as evicted, else stored with at most 500 items and 500 remembered ids, its turn becoming the most recent of at most 500 |
| TimelineStore.MobileTimelineStore.EvictBeyondLimit | apps/mobile/src/ai-sessions/store.ts:430-437 | the eviction loop moves exactly the oldest item to the evicted ids |
| TimelineStore.MobileTimelineStore.DropOldestTurns | apps/mobile/src/ai-sessions/store.ts:440-444 | the loop drops the oldest turn beyond 500 with its evicted ids, and no other |
| TimelineStore.MobileTimelineStore.ForgetTurns | apps/mobile/src/ai-sessions/store.ts:529-533 | forgets the live items and evicted ids of a turn's identities and of no other |
| TimelineStore.MobileTimelineStore.ResolveTurnTimeline | apps/mobile/src/ai-sessions/store.ts:526-539 | resolving forgets the turn's identities, then stores its timeline |
| TimelineStore.MobileTimelineStore.SetTurnTimeline | apps/mobile/src/ai-sessions/store.ts:897-908 | at most 500 timelines are stored; the turn of the one that is dropped also loses its live items and evicted ids |
| TimelineStore.KeptIsMostRecent | apps/mobile/src/ai-sessions/store.ts:438-444 | dropping one turn at a time keeps the most recently touched turns of the whole sequence of touches |
| TimelineRuns.TurnIsItsOwn | apps/mobile/src/ai-sessions/store.ts:425-446 | over every run of arriving items, resolutions, stored timelines and clearings, each turn is what its own items since it was last forgotten make of it |
| TimelineRuns.KeptTurnsAreExactIff | apps/mobile/src/ai-sessions/store.ts:425-446 | over every run, a kept turn always shows the last 500 distinct ids since it was settled, in first-arrival order with latest payloads, if and only if no item returns: neither one that 1000 ids of its turn have followed nor one of a dropped turn that had shown others |
| TimelineRuns.KeptIff | apps/mobile/src/ai-sessions/store.ts:438-444 | a turn is kept if and only if, since it was last touched, it was not taken out and never were 500 later touched turns in the order at once |
| TimelineRuns.KeepsMostRecent | apps/mobile/src/ai-sessions/store.ts:438-444 | as long as nothing is resolved, cleared or outdated, the store keeps exactly the 500 most recently touched turns of the run, where an ignored item touches nothing |
| TimelineRuns.DroppedTurnReturns | apps/mobile/src/ai-sessions/store.ts:440-444 | counterexample: after 500 other turns the first item of a dropped turn is all that it shows |
| TimelineCalls.StoresMeans | apps/mobile/src/ai-sessions/store.ts:897-908 | storing a timeline makes it the most recent; beyond 500 exactly the least recently stored one goes, with its turn's items |
| TimelineCalls.ResolvesMeans | apps/mobile/src/ai-sessions/store.ts:526-539 | resolving forgets the turn under all its identities and stores its timeline; of the other turns at most the one whose timeline goes is forgotten |
| TimelineCalls.ClearsMeans | apps/mobile/src/ai-sessions/store.ts:736-760 | clearing takes the given turns and their timelines out, and nothing else |
| TimelineCalls.LeavesTogether | apps/mobile/src/ai-sessions/store.ts:901-906 | whatever the event, a turn whose timeline leaves the store is forgotten with it |
| TimelineCalls.StoresMostRecent | apps/mobile/src/ai-sessions/store.ts:897-908 | as long as nothing is cleared, the stored timelines are the 500 most recently stored of the whole run |
| TimelineBuffer.HistoryRefines | apps/mobile/src/ai-sessions/store.ts:425-437 | after any sequence of items the bounded turn shows the last 500 admissions with their latest payloads and remembers the 500 before them |
| TimelineBuffer.KeepsLastDistinctIff | apps/mobile/__tests__/ai-session-store-test.ts:497-517 | the last 500 distinct ids in first-arrival order are shown throughout if and only if no id outside the last 1000 repeats |
| TimelineBuffer.EvictedIdReturns | apps/mobile/src/ai-sessions/store.ts:435 | counterexample: item 0 returns after 1000 further ids |
| TimelineMerge.MergeTimelineItems | packages/protocol/src/ai-sessions.ts:1810-1835 | the three loops compute the specified merge |
| TimelineMerge.OrderConstraints | packages/protocol/src/ai-sessions.ts:1809-1835 | the snapshot's order is kept always, the live order if and only if the common ids come in the same order |
| TimelineMerge.LiveOrderLost | packages/protocol/src/ai-sessions.ts:1809-1835 | counterexample: two common ids the other way round |
| TimelineMerge.MergeContents | packages/protocol/src/ai-sessions.ts:1828-1834 | the merge holds the ids of both streams and no others, with the live payload where there is one |
| TimelineMerge.MergeHasNoDoubles | packages/protocol/src/ai-sessions.ts:1810-1835 | a snapshot without repeated ids merges into a timeline without repeated ids |
| TimelineMerge.MergeIsIdempotent | packages/protocol/src/ai-sessions.ts:1810-1835 | merging the same live items again changes nothing |
| BrowserContexts.MobileBrowserController.CreateTabFor | apps/mobile/src/browser/controller.ts:34-44 | opens the tab and asks for the context |
| BrowserContexts.MobileBrowserController.Close | apps/mobile/src/browser/controller.ts:46-53 | closes the tab, and with the last one of its instance ends the demand and releases the context (`CloseTabMeans`) |
| BrowserContexts.MobileBrowserController.ActivateContext | apps/mobile/src/browser/controller.ts:57-77 | keeps or replaces the demand, cancels a suspension, asks for the context |
| BrowserContexts.MobileBrowserController.SuspendContext | apps/mobile/src/browser/controller.ts:79-92 | ends the demand and starts at most one timer |
| BrowserContexts.MobileBrowserController.SuspendAllContexts | apps/mobile/src/browser/controller.ts:94-100 | the loop releases every current context |
| BrowserContexts.MobileBrowserController.ClearProfileContexts | apps/mobile/src/browser/controller.ts:102-114 | ends the profile's demands and timers, drops its tabs and releases the instances that had one |
| BrowserContexts.MobileBrowserController.ResumeEnsure | apps/mobile/src/browser/controller.ts:116-160 | after the captured release: failed if that release failed, cancelled when demand or generation changed, else joins the current state or makes one |
| BrowserContexts.MobileBrowserController.ReleaseContext | apps/mobile/src/browser/controller.ts:196-213 | bumps the generation and moves the current state to the releases under way |
| BrowserContexts.MobileBrowserController.TransportHasClosed | apps/mobile/src/browser/controller.ts:133-146 | a close callback releases only the current state |
| BrowserContexts.StepKeepsInv | apps/mobile/src/browser/controller.ts:116-213 | every step keeps the ownership invariant |
| BrowserContexts.ContextsAreConserved | apps/mobile/__tests__/browser-store-test.ts:38-98 | in every reachable state each prepared context is current, awaits release or was handed to the native release once, exactly one of these; no key has a current context beside a release under way, nor two releases |
| BrowserContexts.StaleCloseIgnored | apps/mobile/__tests__/browser-store-test.ts:149-223 | a context that stopped being current never becomes current again, and its close callbacks change nothing |
| BrowserContexts.ClearedIff | apps/mobile/src/browser/store.ts:65-72 | clearing a profile leaves exactly the contexts whose instance has no tab |
| BrowserContexts.ClearSettles | apps/mobile/src/browser/controller.ts:102-114 | after clearing, some run without a new demand gives an instance a context if and only if it had no tab, and had a context or a waiting `create` of the current generation whose release has not failed |
| BrowserContexts.WaitingCreateSurvives | apps/mobile/src/browser/controller.ts:39-42 | counterexample: a run of three creates after which nothing is left to clear, and the third makes a context after the clearing |
| BrowserContexts.TablessContextSurvives | apps/mobile/src/browser/controller.ts:112-113 | counterexample: activated without a tab |
| BrowserCalls.CloseTabMeans | apps/mobile/src/browser/controller.ts:46-53 | closing takes that tab; with another tab of the instance left that is all; the last one ends the demand, drops the suspension, raises the generation and puts the former context under release; no other instance notices |
| BrowserCalls.ClosedIff | apps/mobile/__tests__/browser-store-test.ts:38-53 | after closing, the instance has a context if and only if it had one and has another tab |
| BrowserCalls.SuspendFiresMeans | apps/mobile/src/browser/controller.ts:86-89 | a due suspension releases the context of its instance and of no other |
| BrowserCalls.SuspendAllMeans | apps/mobile/src/browser/controller.ts:94-100 | suspending everything ends all demands and suspensions and releases exactly the current contexts |
| BrowserCalls.ClearProfileMeans | apps/mobile/src/browser/controller.ts:102-114 | clearing ends the profile's demands and suspensions, closes its tabs and releases exactly its instances that had one; other profiles stay |
| BrowserCalls.TransportClosedMeans | apps/mobile/src/browser/controller.ts:133-146 | a current context whose transport closes is released, nothing else changes |
| BrowserCalls.CreateMakesContext | apps/mobile/src/browser/controller.ts:34-44 | a `create` for a free instance makes one context, which is current and ready once prepared |
| BrowserCalls.CreateShares | apps/mobile/__tests__/browser-store-test.ts:38-53 | a second `create` makes no context of its own |
| BrowserCalls.CancelledCreate | apps/mobile/src/browser/controller.ts:122 | a `create` whose only tab is closed while it waits makes no context |
| BrowserCalls.FailedCreate | apps/mobile/src/browser/controller.ts:39-42 | a failed preparation takes the context away and the `create` drops its tab |
| BrowserCalls.PreparedCreate | apps/mobile/src/browser/controller.ts:125-131 | exactly when a `create` keeps its tab |
| BrowserCalls.SuspendMeans | apps/mobile/src/browser/controller.ts:79-92 | leaving ends the demand, keeps the context and schedules one suspension if there is one |
| BrowserCalls.ReturnInTime | apps/mobile/__tests__/browser-store-test.ts:119-134 | coming back in time keeps the context and takes the suspension away |
| BrowserCalls.ActivateAgain | apps/mobile/src/browser/controller.ts:57-66 | the same client keeps its demand, another one supersedes it |
| BrowserCalls.SupersededActivation | apps/mobile/src/browser/controller.ts:121-122 | a waiting call whose demand is gone makes no context and joins none |
| BrowserCalls.WaitsForItsRelease | apps/mobile/src/browser/controller.ts:120-121 | while the captured release is under way nothing happens for whoever waits for it |
| BrowserCalls.ReleaseDoneMeans | apps/mobile/src/browser/controller.ts:208-212 | a release that settles is over for later calls, unless a newer one of the key has taken its place, and nothing else changes |
| BrowserCalls.RecoverAsks | apps/mobile/src/browser/controller.ts:178-183 | a recovery asks again on behalf of the demand that is there |
| ConnectionCoordinator.MobileControlPlaneConnectionCoordinator.RegisterDomain | apps/mobile/src/control-plane/use-mobile-control-plane-runtime.ts:139-153 | registers under the key and queues a reconciliation |
| ConnectionCoordinator.MobileControlPlaneConnectionCoordinator.ReconcileDomains | apps/mobile/src/control-plane/use-mobile-control-plane-runtime.ts:279-301 | nothing for an unchanged signature, a delta when connected, pending during an attempt, else a restart |
| ConnectionCoordinator.MobileControlPlaneConnectionCoordinator.ApplyDomainDelta | apps/mobile/src/control-plane/use-mobile-control-plane-runtime.ts:337-366 | stops what is no longer desired, subscribes the socket to the topics of the desired domains, starts what was added (`DeltaMeans`) |
| ConnectionCoordinator.MobileControlPlaneConnectionCoordinator.RestartAttempt | apps/mobile/src/control-plane/use-mobile-control-plane-runtime.ts:368-425 | ends the previous attempt and its connection, then begins one or publishes why not: offline, no domains, or the stored trust outcome |
| ConnectionCoordinator.MobileControlPlaneConnectionCoordinator.RoundIsDone | apps/mobile/src/control-plane/use-mobile-control-plane-runtime.ts:450-466 | a second round for pending domains, idle without domains, else the socket with the topics of the active domains (`RoundDoneMeans`, `OpeningTopics`) |
| ConnectionCoordinator.MobileControlPlaneConnectionCoordinator.StartIsDone | apps/mobile/src/control-plane/use-mobile-control-plane-runtime.ts:309-318 | marks a domain synced only in the attempt that started it, while it is registered and active |
| ConnectionCoordinator.MobileControlPlaneConnectionCoordinator.SocketOpened | apps/mobile/src/control-plane/use-mobile-control-plane-runtime.ts:468-482 | applies pending domains and publishes connected |
| ConnectionCoordinator.MobileControlPlaneConnectionCoordinator.ScheduleNextAttempt | apps/mobile/src/control-plane/use-mobile-control-plane-runtime.ts:541-571 | clears what is synced and schedules one retry, or handles a trust outcome |
| ConnectionCoordinator.MobileControlPlaneConnectionCoordinator.StopCoordinator | apps/mobile/src/control-plane/use-mobile-control-plane-runtime.ts:184-203 | ends everything but the registrations |
| ConnectionCoordinator.MobileControlPlaneConnectionCoordinator.ChangeEnvironmentTo | apps/mobile/src/control-plane/use-mobile-control-plane-runtime.ts:165-180 | foreground with its grace period, network and CarPlay change the registry and queue one reconciliation, forced when the grace had run out |
| ConnectionCoordinator.MobileControlPlaneConnectionCoordinator.RetryDeviceTrust | apps/mobile/src/control-plane/use-mobile-control-plane-runtime.ts:206-216 | clears a terminal decision and forces a reconciliation, unless a new sign-in is needed |
| ConnectionCoordinator.MobileControlPlaneConnectionCoordinator.IdentityChecked | apps/mobile/src/control-plane/use-mobile-control-plane-runtime.ts:441-451 | the live attempt publishes its loading phase and begins the first round |
| ConnectionCoordinator.MobileControlPlaneConnectionCoordinator.StartHasFailed | apps/mobile/src/control-plane/use-mobile-control-plane-runtime.ts:354-364 | a failed start of a delta is caught, one of a round fails the attempt that waits for it |
| ConnectionCoordinator.MobileControlPlaneConnectionCoordinator.HandleTrustOutcome | apps/mobile/src/control-plane/use-mobile-control-plane-runtime.ts:573-600 | a decision is terminal; a pending request waits for its retry, or is terminal when it has lapsed |
| ConnectionCoordinator.MobileControlPlaneConnectionCoordinator.TrustRetryIsDue | apps/mobile/src/control-plane/use-mobile-control-plane-runtime.ts:615-626 | a lapsed request becomes terminal, any other forces a reconciliation |
| CoordinatorGuarantees.StepKeepsInv | apps/mobile/src/control-plane/use-mobile-control-plane-runtime.ts:279-571 | every step keeps the coordinator's invariant |
| CoordinatorGuarantees.OneConnectionExactTopics | apps/mobile/__tests__/mobile-control-plane-runtime-test.ts:230-263 | in every reachable state at most one socket is open, it belongs to the live attempt, and it is subscribed to a topic if and only if an active domain has that topic |
| CoordinatorGuarantees.TopicSyncedMeans | apps/mobile/src/control-plane/use-mobile-control-plane-runtime.ts:132-137 | a topic that is not syncing has an active snapshot domain, and every one of them finished start in the current attempt |
| CoordinatorDomains.TopicSyncedForRegistered | apps/mobile/__tests__/mobile-control-plane-runtime-test.ts:126-185 | with nothing queued or pending, and exactly when nothing went unnoticed, a topic is not syncing if and only if the eligible registered snapshot domains, at least one, have been started in the current attempt |
| CoordinatorDomains.PendingRegistrationNotSyncing | apps/mobile/src/control-plane/use-mobile-control-plane-runtime.ts:295-298 | counterexample while a change is pending |
| CoordinatorGuarantees.StaleAttemptChangesNothing | apps/mobile/__tests__/mobile-control-plane-runtime-test.ts:398-464 | completions, callbacks and timers of an attempt that is not live change no domain, phase, synced set or connection |
| CoordinatorGuarantees.ConnectsOnlyWhenReady | apps/mobile/__tests__/mobile-control-plane-runtime-test.ts:206-228 | the socket is asked for only by the live attempt, after the start of every active key was fulfilled in it |
| CoordinatorGuarantees.StartsOnlyAfterAuthentication | apps/mobile/src/control-plane/use-mobile-control-plane-runtime.ts:428-451 | an attempt reaches its starts only from identification |
| CoordinatorGuarantees.IdentifiedOnlyAfterAuthentication | apps/mobile/src/control-plane/use-mobile-control-plane-runtime.ts:428-441 | and identification only from a valid authentication |
| CoordinatorDomains.ActiveIsDesiredIff | apps/mobile/src/control-plane/use-mobile-control-plane-runtime.ts:279-301 | over every run, with a live attempt and nothing to reconcile, the active domains are the eligible registered ones if and only if the last read was not ahead of its reconciliation and no active key was given another object since |
| CoordinatorDomains.QuietTopicsAreDesired | apps/mobile/__tests__/mobile-control-plane-runtime-test.ts:466-492 | connected with nothing to reconcile, the socket is subscribed to a topic if and only if an active domain has it, and, exactly under that condition, if and only if a registered domain that is eligible has it |
| CoordinatorDomains.RegisterKeepsDesiredIff | apps/mobile/__tests__/mobile-control-plane-runtime-test.ts:647-675 | one registration on a settled connection and its reconciliation leave the active domains the desired ones if and only if the domain was not put under the key of another active one |
| CoordinatorDomains.AheadOnlyWhileQueued | apps/mobile/src/control-plane/use-mobile-control-plane-runtime.ts:320-329 | a read is ahead only between a change and its queued reconciliation |
| CoordinatorDomains.ReadAheadKeepsUnregistered | apps/mobile/src/control-plane/use-mobile-control-plane-runtime.ts:320-329 | counterexample: a round between a registration and its reconciliation, then the domain is unregistered |
| CoordinatorDomains.SameKeyNotNoticed | apps/mobile/src/control-plane/use-mobile-control-plane-runtime.ts:280-282 | counterexample: a different object under an active key |
| CoordinatorProgress.StepKeepsProgress | apps/mobile/src/control-plane/use-mobile-control-plane-runtime.ts:368-627 | every step keeps: the phase of a live attempt goes with the await, socket or timer that it waits for |
| CoordinatorProgress.NothingUnderWayIff | apps/mobile/src/control-plane/use-mobile-control-plane-runtime.ts:434-462 | in every reachable state a live attempt has no await, socket or timer left if and only if it ended idle, its session has expired, or a trust decision ended it and neither socket nor reconnect timer is left |
| CoordinatorProgress.AttemptEndsIdle | apps/mobile/src/control-plane/use-mobile-control-plane-runtime.ts:457-462 | a run into the idle case: the attempt's only domain goes away |
| CoordinatorProgress.RegistrationRestartsIff | apps/mobile/src/control-plane/use-mobile-control-plane-runtime.ts:284-299 | with nothing under way, a newly registered eligible domain begins a new attempt if and only if the session has expired; otherwise it is only marked pending |
| CoordinatorProgress.StrandedForGood | apps/mobile/src/control-plane/use-mobile-control-plane-runtime.ts:284-299 | over every run without a forced reconciliation, a change of the environment or a stop, such an attempt asks for no socket, starts no domain and changes neither phase nor active domains |
| CoordinatorProgress.IdleAttemptStrandsDomains | apps/mobile/src/control-plane/use-mobile-control-plane-runtime.ts:457-462 | after any run that left an attempt idle, whatever is registered in such a run stays unconnected and unsynced |
| CoordinatorCalls.OpeningTopics | apps/mobile/src/control-plane/use-mobile-control-plane-runtime.ts:457-466 | in every reachable state, the step that asks for the socket subscribes it to a topic if and only if an active domain has it |
| CoordinatorCalls.DeltaMeans | apps/mobile/src/control-plane/use-mobile-control-plane-runtime.ts:337-366 | a delta subscribes the socket to a topic if and only if a desired domain has it, and starts exactly the domains under a key that was not active |
| CoordinatorCalls.RoundMeans | apps/mobile/src/control-plane/use-mobile-control-plane-runtime.ts:320-335 | a round takes the desired domains over and starts exactly those under a key that the attempt has not started yet |
| CoordinatorCalls.RoundDoneMeans | apps/mobile/src/control-plane/use-mobile-control-plane-runtime.ts:451-466 | a second round exactly if a change came in during the first, then the socket, or the idle end without domains |
| CoordinatorCalls.RegisterOnConnection | apps/mobile/__tests__/mobile-control-plane-runtime-test.ts:647-675 | a domain under a new key on a settled connection is subscribed to and started, and nothing changes for the others |
| CoordinatorCalls.RestartMeans | apps/mobile/src/control-plane/use-mobile-control-plane-runtime.ts:368-425 | a restart ends what was there and begins an attempt exactly if there is a network, a domain and no terminal trust outcome |
| CoordinatorCalls.PhasesTell | apps/mobile/src/control-plane/use-mobile-control-plane-runtime.ts:411-449 | in every reachable state the phase tells what it says: a retry, a closed control plane, a trust decision, or none of these |
| CoordinatorCalls.FailureSchedules | apps/mobile/src/control-plane/use-mobile-control-plane-runtime.ts:541-571 | the first failure of a live attempt schedules its one retry, nothing counts as synced until then, and whatever else fails meanwhile changes nothing |
| CoordinatorCalls.RetryBegins | apps/mobile/src/control-plane/use-mobile-control-plane-runtime.ts:566-570 | when the retry is due a new attempt begins, if there still is a network and a domain |
| CoordinatorCalls.OpenedMeans | apps/mobile/src/control-plane/use-mobile-control-plane-runtime.ts:468-481 | an opened socket ends the failure; once it has been stable the count of retries begins anew |
| CoordinatorCalls.ShortInterruption | apps/mobile/__tests__/mobile-control-plane-runtime-test.ts:494-519 | a short interruption leaves everything as it was |
| CoordinatorCalls.GraceEnds | apps/mobile/__tests__/mobile-control-plane-runtime-test.ts:521-537 | when the grace has expired the attempt and its socket end, and no domain is left active |
| CoordinatorCalls.FrozenReturn | apps/mobile/__tests__/mobile-control-plane-runtime-test.ts:539-558 | coming back after the grace has run out unnoticed replaces the connection, although the domains are the same |
| CoordinatorCalls.BackgroundDomains | apps/mobile/__tests__/mobile-control-plane-runtime-test.ts:803-822 | in the background CarPlay keeps exactly the background domains, and without it none is kept |
| CoordinatorCalls.CarPlayBackground | apps/mobile/src/control-plane/use-mobile-control-plane-runtime.ts:237-242 | with CarPlay the background takes effect at once, without any grace |
| CoordinatorCalls.NetworkLost | apps/mobile/src/control-plane/use-mobile-control-plane-runtime.ts:378-384 | without a network everything ends, and the domains stay registered |
| CoordinatorCalls.RefusalHolds | apps/mobile/__tests__/mobile-control-plane-runtime-test.ts:298-330 | after a terminal trust outcome no attempt begins and no socket is asked for, over every run in which nobody asks again |
| CoordinatorCalls.AskingAgain | apps/mobile/__tests__/mobile-control-plane-runtime-test.ts:298-330 | asking again begins one attempt, unless a new sign-in is needed |
| CoordinatorCalls.OutcomeMeans | apps/mobile/src/control-plane/use-mobile-control-plane-runtime.ts:573-600 | a decision ends the exchange, a pending request waits for its retry, one that has lapsed ends it too |
| CoordinatorCalls.StopMeans | apps/mobile/src/control-plane/use-mobile-control-plane-runtime.ts:184-203 | stopping ends everything and keeps the registrations |
| CoordinatorCalls.QueueMeans | apps/mobile/src/control-plane/use-mobile-control-plane-runtime.ts:218-235 | a reconciliation that is queued already takes the stronger mode of the two |
| CoordinatorCalls.EnvironmentMeans | apps/mobile/src/control-plane/use-mobile-control-plane-runtime.ts:165-180 | what foreground, grace, network and CarPlay become, and the reconciliation that is queued |
| CoordinatorCalls.GraceExpiresMeans | apps/mobile/src/control-plane/use-mobile-control-plane-runtime.ts:246-256 | an expired grace ends the foreground and queues a reconciliation of the environment |
| CoordinatorCalls.StartDoneMeans | apps/mobile/src/control-plane/use-mobile-control-plane-runtime.ts:309-318 | a fulfilled start is over, and its domain is synced exactly if the current attempt started it and it is still registered and active |
| CoordinatorCalls.StartFailsMeans | apps/mobile/src/control-plane/use-mobile-control-plane-runtime.ts:354-364 | a failed start of a delta is over and nothing else; one of a round ends the attempt that waits for it |
| CoordinatorCalls.AuthenticatedMeans | apps/mobile/src/control-plane/use-mobile-control-plane-runtime.ts:432-438 | a valid session is identified next, an expired one ends the attempt without a retry |
| CoordinatorCalls.IdentifiedMeans | apps/mobile/src/control-plane/use-mobile-control-plane-runtime.ts:439-451 | the phase after the identity, exactly, and the first round |
| CoordinatorCalls.SocketFailsMeans | apps/mobile/src/control-plane/use-mobile-control-plane-runtime.ts:486-497 | a closed socket is gone, and only a live attempt schedules a retry for it |
| CoordinatorCalls.TimeoutMeans | apps/mobile/src/control-plane/use-mobile-control-plane-runtime.ts:499-504 | a socket that does not open in time is closed, and a retry is scheduled |
| CoordinatorCalls.RetryIsOver | apps/mobile/src/control-plane/use-mobile-control-plane-runtime.ts:566-570 | a retry happens once and only for its own attempt |
| ApprovalRegister.OperationApprovals.Publish | packages/control-plane/src/control-plane/approvals/operation-approvals.ts:79-89 | every change takes the next revision and keeps: what is pending is what the published changes add up to |
| ApprovalRegister.OperationApprovals.Snapshot | packages/control-plane/src/control-plane/approvals/operation-approvals.ts:100-107 | a snapshot lists exactly what is pending at its revision |
| ApprovalRegister.OperationApprovals.Decide | packages/control-plane/src/control-plane/approvals/operation-approvals.ts:147-156 | decides pending requests only, and publishes it |
| ApprovalRegister.OperationApprovals.Remove | packages/control-plane/src/control-plane/approvals/operation-approvals.ts:158-164 | cancelling, consuming or expiring removes the entry and publishes it |
| ApprovalRegister.TerminalIsFinal | packages/control-plane/src/control-plane/approvals/operation-approvals.ts:79-98 | a request that became terminal is pending at no later revision |
| ApprovalFence.ApprovalCenter.ApplyOperationEvent | apps/mobile/src/approval-center/controller.ts:264-282 | the fence for events: generation change, old revision, next revision |
| ApprovalFence.ApprovalCenter.ReceiveSnapshot | apps/mobile/src/approval-center/controller.ts:532-562 | the fence for snapshots with its one recovery retry |
| ApprovalFence.TerminalStaysTerminal | apps/mobile/__tests__/approval-center-controller-test.ts:378-397 | while the client stays in a generation, no genuine event or snapshot makes a terminal request pending again |
| ApprovalFence.PendingEventShowsIff | apps/mobile/src/approval-center/controller.ts:268-278 | a late pending event shows its request if and only if the client is in another generation or behind the event |
| ApprovalFence.OldGenerationRevives | apps/mobile/src/approval-center/controller.ts:268-274 | counterexample: an event of the old generation after one of the new |
| ApprovalFence.GoesBackIff | apps/mobile/src/approval-center/controller.ts:538-555 | a step goes back to an older generation if and only if it is an event of one, or the answer to a request from before the current generation that arrives with the recovery over or its retry used up |
| ApprovalFence.GenerationNeverGoesBack | apps/mobile/__tests__/approval-center-controller-test.ts:485-603 | over every run without such a step the generation never goes back |
| ApprovalFence.LoneRefreshIsSafe | apps/mobile/__tests__/approval-center-controller-test.ts:505-539 | the answer of a refresh whose recovery still has its retry never goes back |
| ApprovalFence.NewGenerationBegins | apps/mobile/src/approval-center/controller.ts:268-281 | an event of another generation forgets everything, shows what it says, starts the recovery of its generation and one fetch |
| ApprovalFence.OwnEventMeans | apps/mobile/src/approval-center/controller.ts:275-281 | a later event of the own generation changes its own request and no other, an earlier one nothing |
| ApprovalFence.OtherAnswerRefetched | apps/mobile/__tests__/approval-center-controller-test.ts:505-538 | while a generation is recovered, the answer of another one is fetched anew once and changes nothing |
| ApprovalFence.RecoveryEndsIff | apps/mobile/__tests__/approval-center-controller-test.ts:575-603 | the steps that end a recovery, exactly; an answer that ends it is shown as it is, even of another generation after the retry |
| ApprovalFence.AnswerShownIff | apps/mobile/__tests__/approval-center-controller-test.ts:540-573 | without a recovery an answer is shown exactly when it is of another generation or not behind |
| ApprovalFence.AbortedAnswerIgnored | apps/mobile/src/approval-center/controller.ts:532-537 | a failed fetch and an answer after an abort change nothing for the client |
| ApprovalFence.AcknowledgedMeans | apps/mobile/src/approval-center/controller.ts:402 | a local removal takes that request and nothing else |
| ApprovalFence.OverlappingRefreshGoesBack | apps/mobile/src/approval-center/controller.ts:532-562 | counterexample: two overlapping refreshes |
| ApprovalFence.SnapshotRestores | apps/mobile/src/approval-center/controller.ts:550-555 | an accepted snapshot makes the shown requests exactly the pending ones |
| ApprovalFence.OrderKeepsExact | apps/mobile/src/approval-center/controller.ts:275-278 | events in order keep them exact |
| ApprovalFence.SkippedChange | apps/mobile/src/approval-center/controller.ts:275-276 | after an event that skips any number of changes an exact client is exact if and only if the skipped changes left every other request as it was |
| ApprovalFence.ExactIff | apps/mobile/src/approval-center/controller.ts:264-282 | over every run of genuine messages, local removals and refreshes, the client shows what is pending at its revision if and only if what it missed since the last accepted snapshot made no difference |
| ApprovalFence.HeardIsPendingIff | apps/mobile/src/approval-center/controller.ts:275-278 | hearing only some changes ends at the pending set if and only if no skipped change that is the last of its request said anything new, and nothing dropped is pending |
| DirectoryRefresh.MobileDirectoryController.RequestRefresh | apps/mobile/src/directories/controller.ts:304-310 | starts a refresh or queues behind the one under way |
| DirectoryRefresh.MobileDirectoryController.RefreshSettles | apps/mobile/src/directories/controller.ts:311-318 | starts what is queued if the epoch is unchanged |
| DirectoryRefresh.MobileDirectoryController.RefreshTimerFires | apps/mobile/src/directories/controller.ts:293-302 | requests all that was scheduled |
| DirectoryRefresh.StrandsIff | apps/mobile/src/directories/controller.ts:312-314 | a queue is stranded exactly by a refresh of an earlier epoch that settles |
| DirectoryRefresh.TrailingRefresh | apps/mobile/__tests__/directory-lifecycle-test.ts:590-621 | without that, at quiescence the last refresh of every domain began after the last request for it |
| DirectoryRefresh.OnlyStrandedIsOutstanding | apps/mobile/src/directories/controller.ts:304-321 | in every run a domain is still waited for at quiescence if and only if a request for it was stranded, with neither a stop nor a refresh of it since, and it is then in the queue that nothing starts |
| DirectoryRefresh.RequestStranded | apps/mobile/src/directories/controller.ts:312-314 | counterexample: stop and start during a refresh |
| DirectoryRefresh.NothingExtra | apps/mobile/src/directories/controller.ts:293-321 | no domain is refreshed that was not asked for |
| DirectoryRefresh.BeginsWithAll | apps/mobile/src/directories/controller.ts:304-318 | a refresh begins with everything that was queued or scheduled for it |
| DirectoryRefresh.EpochsMean | apps/mobile/src/directories/controller.ts:170-180 | a start and a stop begin another epoch; a stop also gives up what is queued and scheduled, and neither touches the refresh under way |
| DirectoryRefresh.OutstandingIff | apps/mobile/src/directories/controller.ts:304-318 | exactly which domains a caller still waits for after a step |
| RenderQueue.MermaidQueue.RenderMermaid | packages/web-theme/mermaid.ts:8-24 | chains the job behind the queue and becomes the queue |
| RenderQueue.MermaidQueue.RenderAfterImport | packages/web-theme/mermaid.ts:10-19 | sets the call's theme, takes the next id, renders |
| RenderQueue.RendersAreSerial | packages/web-theme/mermaid.ts:5-24 | for all calls and failures: no two jobs run at once, jobs run in call order, each render sees its own theme, ids increase |
| RenderQueue.StepsSettle | packages/web-theme/mermaid.ts:22 | every step of a job brings the end nearer |
| RenderQueue.NeverStuck | packages/web-theme/mermaid.ts:22 | while a call is unsettled some job can make a step, whatever failed before |
| RenderQueue.SettledIff | packages/web-theme/mermaid.ts:22-24 | a call settles with what became of its own import and render, once and for good |
| RenderQueue.RenderedIff | packages/web-theme/mermaid.ts:10-20 | exactly the calls whose import succeeded are rendered |
| HtmlEscape.EscapeIsOnePass | packages/web-theme/markdown.ts:25-32 | the five replacements equal one map over the characters |
| HtmlEscape.EscapedHasNoMarkup | packages/web-theme/markdown.ts:25-32 | no angle bracket and no quote is left |
| HtmlEscape.UnescapeEscape | packages/web-theme/markdown.ts:25-32 | unescaping inverts escaping on every string |
| HtmlEscape.EscapeIsInjective | packages/web-theme/markdown.ts:25-32 | different strings stay different |
| HtmlEscape.FiveEntities | packages/web-theme/markdown.ts:25-32 | each of the five characters has its own entity, and every other character stays |
| RelayCodec.Nonce | apps/mobile/src/control-plane/relay-channel.ts:710-715 | the loop writes direction, zeros and the counter's low 48 bits |
| RelayCodec.NonceEqualIff | apps/mobile/src/control-plane/relay-channel.ts:710-715 | nonces are equal exactly when directions agree modulo 2^8 and counters modulo 2^48 |
| RelayCodec.Concat | apps/mobile/src/control-plane/relay-channel.ts:717-723 | the loops write the values one after the other |
| RelayCodec.DecodeEncode | packages/cloud-contracts/src/relay-frame.ts:51-76 | whatever can be encoded is decoded again |
| RelayCodec.EncodeDecode | packages/cloud-contracts/src/relay-frame.ts:51-76 | whatever can be decoded is the one encoding of its frame |
| RelayCodec.NonceLayout | apps/mobile/src/control-plane/relay-channel.ts:710-715 | byte by byte: the direction, seventeen zeros, and the counter's low six bytes with the most significant byte first |
| RelayCodec.FrameLayout | packages/cloud-contracts/src/relay-frame.ts:51-65 | where version, type, flags, length and sequence number lie in a frame |
| RelayCodec.RefusedIff | packages/cloud-contracts/src/relay-frame.ts:51-56 | exactly which frames are refused, and which of them as too large |
| Base64Url.ToBase64Url | apps/mobile/src/control-plane/relay-channel.ts:725-729 | the append loop, the replacements and the stripping compute the specified text |
| Base64Url.RoundTrip | apps/mobile/src/control-plane/relay-channel.ts:725-735 | decoding inverts encoding on every byte sequence |
| Base64Url.UrlAlphabet | apps/mobile/src/control-plane/relay-channel.ts:725-729 | the text holds no padding, plus or slash |
| Base64Url.AtobBtoa | apps/mobile/src/control-plane/relay-channel.ts:728-733 | base64 as in section 4 of RFC 4648 decodes to what was encoded |
| Base64Url.LettersAreTheAlphabet | apps/mobile/src/control-plane/relay-channel.ts:728 | the letters are those of table 1 of RFC 4648 |
| Base64Url.ShortVectors | apps/mobile/src/control-plane/relay-channel.ts:728 | the first test vectors of section 10 of RFC 4648 |
| RelayChannel.EncryptedRelayChannel.Send | apps/mobile/src/control-plane/relay-channel.ts:260-268 | both counters advance for every sealed message; it is written only if the frame can be encoded |
| RelayChannel.DirectionsAreIndependent | apps/mobile/__tests__/relay-channel-test.ts:424-438 | however sends, renewals and receptions interleave, the frames are those of the sends alone, numbered without a gap exactly without a refusal before a later send, and what is expected next depends on the receptions alone |
| RelayChannel.EncryptedRelayChannel.OnMessage | apps/mobile/src/control-plane/relay-channel.ts:380-406 | delivers the next frame that opens, unpacked with the frame's flags, and closes on any other |
| RelayChannel.FitsIsEncodable | packages/cloud-contracts/src/relay-frame.ts:52-56 | a message fits exactly when its frame can be encoded |
| RelayChannel.SentAre | apps/mobile/__tests__/relay-channel-test.ts:216-230 | every frame carries its own message, sealed with the counter one below its number; numbers increase |
| RelayChannel.SentFields | apps/mobile/src/control-plane/relay-channel.ts:260-268 | type, flags and number of what is sent |
| RelayChannel.FittingAreSent | apps/mobile/src/control-plane/relay-channel.ts:260-268 | exactly the messages that fit are sent, in order |
| RelayChannel.ReceiveMeans | apps/mobile/src/control-plane/relay-channel.ts:380-406 | every frame takes a number, every frame in sequence a nonce, and the channel stays open exactly if the frame then opens and can be read |
| RelayChannel.RenewalMeans | apps/mobile/src/control-plane/relay-channel.ts:289-298 | a renewal is asked for on an open channel with a grant for this session, and takes no number |
| RelayChannel.ContiguousIff | apps/mobile/src/control-plane/relay-channel.ts:260-268 | frames are numbered without a gap if and only if no message was refused before another was sent |
| RelayChannel.NoNonceTwice | apps/mobile/src/control-plane/relay-channel.ts:260-287 | no nonce goes over the wire twice, within or across directions |
| RelayChannel.NonceWraps | apps/mobile/src/control-plane/relay-channel.ts:710-715 | a nonce repeats after 2^48 seals and not earlier |
| RelayChannel.DeliveredIsPrefix | apps/mobile/__tests__/relay-channel-test.ts:591-601 | under any network that cannot seal, what is delivered comes from the first messages the peer sealed, in order, each once and really sent; it is what the peer packed if and only if the frame carried the peer's flags or inflating makes no difference to the message |
| RelayChannel.ChangedFlag | apps/mobile/src/control-plane/relay-channel.ts:386-388 | counterexample: a changed flag closes the channel or delivers the payload read the other way |
| RelayChannel.ClosedForGood | apps/mobile/src/control-plane/relay-channel.ts:385-405 | the first frame out of sequence closes the channel and nothing more is delivered |
| RelayChannel.FaithfulNetworkDelivers | apps/mobile/src/control-plane/relay-channel.ts:380-402 | with a faithful network all messages that fit arrive as they were packed |
| RelayChannel.RefusalBreaksChannel | apps/mobile/src/control-plane/relay-channel.ts:265-267 | counterexample: a refused message breaks the channel at the next frame |
| ModuleSpecifiers.SpecifierRebuilt | bin/check-package-boundaries.js:78-86 | dependency and subpath rebuild every specifier; the subpath is "." or begins with "./"; which part is the dependency is `DependencyIff` |
| ModuleSpecifiers.DependencyIff | bin/check-package-boundaries.js:78-81 | the dependency of an import is the package of that name exactly if the specifier is the name or a path below it; a scoped name has two segments, any other one |
| ModuleSpecifiers.PlainHasNoSlash | bin/check-package-boundaries.js:80 | without a scope the dependency holds no slash |
| ModuleSpecifiers.OneStarKey | bin/check-package-boundaries.js:88-92 | a one-star key accepts every true substitution, and only those among the subpaths as long as its two ends |
| ModuleSpecifiers.OverlapAccepted | bin/check-package-boundaries.js:90-91 | counterexample: overlapping ends |
| ModuleSpecifiers.SecondStarIgnored | bin/check-package-boundaries.js:90-91 | counterexample: what follows a second star is not compared |
| PackageBoundaries.CheckWorkspace | bin/check-package-boundaries.js:163-233 | the nested loops and the final sort compute the report; what it holds is said by `ReportHolds` and the answers below |
| PackageBoundaries.CheckSpecifier | bin/check-package-boundaries.js:184-228 | one round of the innermost loop, each `continue` a return; what it answers is said by `RelativeAnswer` and `PackageAnswer` |
| BoundaryAnswers.RelativeResolves | bin/check-package-boundaries.js:189 | a relative specifier leads from the file's directory up and down to exactly that path |
| BoundaryAnswers.RelativeAnswer | bin/check-package-boundaries.js:188-198 | a relative import: `ee` first, then another package's directory, else nothing, each exactly |
| BoundaryAnswers.PackageAnswer | bin/check-package-boundaries.js:201-228 | a package import by its name or a path below it: the package itself, an undeclared name, an app, a path that is not exported, or nothing, each exactly |
| BoundaryAnswers.DatabaseAnswer | bin/check-package-boundaries.js:205-208 | the database boundary is answered before everything else, exactly when it is crossed |
| BoundaryAnswers.DeclaredIsFound | bin/check-package-boundaries.js:214-217 | a declared package other than the owner, imported by its name or a path below it, is never answered as undeclared |
| BoundaryAnswers.ManifestAnswer | bin/check-package-boundaries.js:171-179 | what is found in a manifest: the pair that must stay apart, both ways, and apps below reusable packages |
| BoundaryAnswers.WhatIsIgnored | bin/check-package-boundaries.js:141-152 | exactly what is not looked at |
| BoundaryAnswers.NodeAgentDatabases | bin/check-package-boundaries.js:25-39 | the database packages that the node agent must not import |
| BoundaryAnswers.RuntimeDatabases | bin/check-package-boundaries.js:25-39 | those that the shared runtime and the controlled instance must not import |
| BoundaryAnswers.NoOtherDatabases | bin/check-package-boundaries.js:25-39 | anywhere else none is forbidden |
| BoundaryAnswers.BelowMeans | bin/check-package-boundaries.js:28-37 | a path is below its directories and not below itself |
| BoundaryAnswers.QueryIsCut | bin/check-package-boundaries.js:186 | the query and the fragment of an import do not count |
| BoundaryAnswers.KeysOffer | bin/check-package-boundaries.js:88-106 | keys without a star as they are, those with one star for whatever takes its place |
| BoundaryAnswers.PlainKeysOffer | bin/check-package-boundaries.js:94-106 | what is exported without stars, or without an exports map |
| BoundaryAnswers.ReportHolds | bin/check-package-boundaries.js:169-232 | the report holds a line for each finding and no other |
| BoundaryAnswers.NamedRelatively | bin/check-package-boundaries.js:182 | files are named relative to the root, with slashes |
| BoundaryGuarantees.OwnerForPathIff | bin/check-package-boundaries.js:73-76 | at most one package owns a path, and it is found |
| BoundaryGuarantees.CheckDecides | bin/check-package-boundaries.js:169-228 | the report is empty if and only if the declared boundary relation holds on every manifest entry and every import |
| BoundaryGuarantees.OrderIndependent | bin/check-package-boundaries.js:57-76 | the same report for every order of packages, files and specifiers |
| BoundaryGuarantees.NoAppReachable | bin/check-package-boundaries.js:218-221 | with an empty report no chain of imports leads from a reusable package to an app |
| BoundaryGuarantees.PairStaysApart | bin/check-package-boundaries.js:18-25 | with an empty report neither of control plane and node agent imports the other, although only manifests are compared for that pair |
| BoundaryGuarantees.OrderMattersForSharedNames | bin/check-package-boundaries.js:165 | counterexample: two packages of one name |
| SortedLines.SortUniqueSorts | bin/check-package-boundaries.js:232 | sorting keeps exactly the lines, once each, in order |
| SortedLines.SortedIsCanonical | bin/check-package-boundaries.js:232 | a sorted list is determined by its set of lines |

## Left out

Assumptions about the platform, and what the models do not capture:

- RefreshRotation.Intend: assumes that writes reach the secure store in the order in which they are issued, so that installs of joined sessions, issued when a flight resolves, precede the intent of the next flight.
- RefreshRotation.RotationSafety: covers runs without logout and without copies delivered after completion; `RevokedIff` and `MissingStoreRevokesIff` say what happens otherwise.
- RefreshRotation.LegacyRevokedIff: the fallback for older servers is modelled by attempts and their outcomes, without sessions and flights, because it has no recovery record.
- RefreshRotation: expiry of access tokens, login, the server's own device management and the account's other requests.
- AiSessionReducer: the time stamps and the optional `revision` and `lastEventAt` of entries are always present; projections for consumers without sub-agents and schema validation are not modelled.
- AiSessionReplica: streamed message deltas, terminal-turn authorities, listeners and the sync phase shown to the user.
- AiSessionConvergence.DeltaIsExact: the retained history is a suffix of the log; pruning it by age or count is a parameter.
- The app-session store: its stream rules are those of the session replica; the local insertion of a session is not modelled.
- TimelineStore: the contents of stored timelines, revisions of timeline items, and text deltas of an item.
- BrowserContexts: the 30-second suspension, back-off and time stamps; a recovery may happen at any time while there is a demand, and the order of tabs and the active tab are not modelled.
- ConnectionCoordinator: transient message demands, session renewal against older servers, diagnostics, and the exact delays of retries, grace and trust timers, which are steps that may happen at any time.
- CoordinatorDomains.TopicSyncedForRegistered: while a change is pending it says nothing; `PendingRegistrationNotSyncing` shows what the code does then.
- ApprovalFence: the other approval sources; the payload of a request is determined by its id, and a request removed by this client's own decision may be shown again by a snapshot taken before it.
- ApprovalRegister: owners, digests, limits and life times of requests.
- DirectoryRefresh: what a refresh loads; starting the controller loads everything by itself.
- RenderQueue: the imported renderer; importing and rendering are steps that later succeed or fail.
- Base64Url: `atob` on text with white space or of a length that is no multiple of four, which never reaches it here.
- RelayChannel: encryption, the compression algorithm, handshake, leases, and what text control says beyond taking no number; sealing is an injective box that only its nonce opens, and a message carries both what its payload says as it is and what it says when inflated. Binary bodies and browser frames take the same path as `Send`.
- PackageBoundaries: the directory walk, reading manifests, and extraction of specifiers from source text; line order compares characters, which differs from JavaScript's order by UTF-16 units only beyond the basic plane, and does not affect which list is canonical.
- BoundaryGuarantees.NoAppReachable: follows imports between files of workspace packages; files outside every package are not checked by the source.
- Image preview transforms, menus, layout and relay scoring: formulas that would only add easy members.
