# Verified model of the sync daemon, its relay and its text tools

The repository keeps the working copies of several developers and agents in step. A daemon beside
each copy watches files, takes file locks, sends local changes and applies remote ones; a relay
server passes encrypted frames between the daemons of a room; a command line tool patches files.
This project models the parts with the most state and branching, and proves what they keep.

- **File locks** (`Scopes`, `LockTable`, `LockState`, `LockRuns`, `LockGrowth`, `LockDuty`,
  `FileLockManager`, `LockAnswers`, `LockHistory`, `LockCap`, `LockCapExamples`,
  `LockWaitExamples`): leases, fencing tokens, glob scopes, lazy expiry and priority wait queues.
  Releasing an expired lock during a scan of the table grants waiters, which scan the table again.
  The class keeps that mutual recursion, with the table as the entry list of a JavaScript `Map`, so
  that a scan also meets entries appended behind it. An exception thrown when the table is full
  unwinds all nested calls, as in the program.
- **Relay** (`Rooms`, `RoomEvents`, `Signaling`, `RateLimits`, `Admissions`): the room index, joins,
  departures and their news, broadcasts, idle cleanup, the client's peer map, the sliding window
  limiter and the ledger of connections that have not joined.
- **Frames and counters** (`Bytes`, `Nonces`, `Frames`, `Replay`): the binary frame, the 96-bit
  nonce, and replay protection while asynchronous steps finish in any order.
- **Daemon queues** (`Updates`, `Gates`, `GateEvents`, `Pauses`, `Manifests`): the propagation gate,
  the pause buffer and the rename window of the manifest.
- **Text** (`Diffs`, `PatchBroker`): edit scripts turned into operations and applied from the
  highest index down, and the greedy line patcher.

Objects that the program changes in place are classes. Each method states its whole new state as a
function of the old one (`State()` or `View()` is the object's state as a value), and the laws are
proved about those functions and over whole runs of them. `now` is the clock reading of one
synchronous call; between calls it may be anything, unless a member asks for more.

## What came out

Where the code does less than its comments or its documentation suggest, the code is modelled as it
is, with a witness and a condition.

- A lock release can lose a waiter. The cap of 100 locks is tested again inside the grant loop, after
  a waiter has been taken off its queue; when it is reached there, the exception leaves that waiter
  in no queue with its promise pending. A release throws exactly when it strands somebody. `Release`
  says that this never happens while the locks and the paths waited for are together at most 101;
  `ReleaseLosesWaiter` performs a history from a new manager that gets there with 102. Where nothing
  has expired and waiters do not hinder each other, `StrandsIff` and `ReleaseIndependent` say that
  passing this number is the exact condition.
- The table can hold 101 locks, one more than the cap: the test comes before nested grants.
  `RequestPassesCap` performs such a history. `GrantKeepsCap` and `Perform` say that no call passes the
  cap while the locks and the paths waited for are together at most 100, the history has 101, and
  `RequestSize` gives the exact size for independent waiters.
- A timeout serves nobody. The waiter behind it can be left first in line with nothing in its way,
  until the next release: `TimeoutLeavesWaiter` performs such a history, `TimeoutKeepsHeadsIff` says
  when, and `NobodyWaitsForNothing` says that nothing else does this, except a throw at a full table.
- Sending and receiving share one table of counters, which is written before decryption. A frame
  under the daemon's own name can move the daemon's own counter to the end of its range, and the
  next nonce is its first one again (`OwnFrameRepeatsNonce`). `NoncesUnique` states uniqueness for
  what arrives under the own name and the number of frames sent; without such frames
  `NoncesUniqueIff` says that nonces are unique if and only if at most 2^64 frames are sent.
- An insertion in front of a deletion is eaten by it (`InsertBeforeDeleteFails`). `RoundTripIff`
  says for which edit scripts applying the operations gives the new text.
- A path that is deleted and set again within the rename window can end up as deleted
  (`RecreatedIsLost`). `LatestDecides` says when.
- The 50 MB figure of the pause buffer is no bound for arbitrary updates (`FiftyMegabytesIsNoBound`):
  it bounds all runs of updates up to a size if and only if that size is at most 52428 bytes
  (`FitsIff`). Then the buffer is exactly the last 1000 of them (`SmallUpdatesFit`); copies of one
  larger update never fill the thousand places (`LargeUpdatesCrowd`). It also bounds updates that never
  grow (`NeverGrowingFit`). The relay's schema lets small ones through only (`RelayedIsSmall`), so the
  failure needs another transport. The 50 MB of the gate queue are a bound for all updates.
- The gate does not keep the order of one path's updates (`TwoUpdatesSwap`). `LocalUpdateInOrderIff`
  says which update breaks it.
- A file id of 65536 bytes or more does not survive the frame's two-byte length
  (`ParseUndoesEncodeIff`).
- Scope conflicts are decided by static prefixes: no shared file is missed, but scopes with no file
  in common can conflict (`OverlapIsConservative`). For scopes over whole directories conflict is
  exactly a shared path (`DirectoriesConflictIff`). A bare `scope:` counts as a plain path.
- A room keeps its secret while it exists (`RoomKeepsSecret`); a room whose only member joins it again
  ends and starts anew with the secret named then (`SecretChangesIff`).
- Cleaning up the rate limiter changes no acceptance, but forgives violations (`Cleanup`).

## Model

| member | source | states |
|---|---|---|
| `Scopes.CompileGlob` | packages/daemon/src/file-lock-manager.ts:413-432 | the pattern-building loop yields the token list of the glob: `**`, `*`, `?` and literals |
| `Scopes.MatchesIffSplit` | packages/daemon/src/file-lock-manager.ts:413-433 | the anchored match holds if and only if the path can be cut into one piece per token, each admitted by its token |
| `Scopes.TokensSpell` | packages/daemon/src/file-lock-manager.ts:413-432 | the tokens of a glob spell it, no wildcard is read as a literal, and two stars are always read together |
| `Scopes.ReadingIsUnique` | packages/daemon/src/file-lock-manager.ts:413-432 | no other token list does |
| `Scopes.FilesConflictIff` | packages/daemon/src/file-lock-manager.ts:386-394 | two plain paths conflict if and only if they are the same |
| `Scopes.ScopeConflictsIff` | packages/daemon/src/file-lock-manager.ts:386-394 | a scope and a plain path conflict, in either order, if and only if the path can be cut into one piece for each token of the glob |
| `Scopes.FileConflictsIff` | packages/daemon/src/file-lock-manager.ts:386-433 | a plain file conflicts with exactly the lock paths that speak for it: its own, and the scopes it fits |
| `Scopes.StaticPrefixIs` | packages/daemon/src/file-lock-manager.ts:406-411 | the static prefix of a glob is the longest beginning that ends in a slash and has no wildcard |
| `Scopes.ScopesConflictIff` | packages/daemon/src/file-lock-manager.ts:386-411 | two scopes conflict if and only if the static prefix of one is a beginning of the other's |
| `Scopes.MatchStartsWithLiteralPart` | packages/daemon/src/file-lock-manager.ts:406-411 | every matched path starts with the glob's text before its first wildcard |
| `Scopes.SharedMatchOverlaps` | packages/daemon/src/file-lock-manager.ts:400-433 | scope soundness: globs that match a common path have overlapping static prefixes, for every path |
| `Scopes.ConflictSymmetric` | packages/daemon/src/file-lock-manager.ts:386-394 | conflict is symmetric and reflexive |
| `Scopes.CommonFileConflicts` | packages/daemon/src/file-lock-manager.ts:386-433 | two lock paths that both speak for one plain file conflict |
| `Scopes.OverlapIsConservative` | packages/daemon/src/file-lock-manager.ts:400-404 | two scopes that conflict although no path is matched by both |
| `Scopes.DirectoriesConflictIff` | packages/daemon/src/file-lock-manager.ts:386-433 | scopes over whole directories conflict if and only if some path is matched by both |
| `LockState.BeforeIsStrictTotal` | packages/daemon/src/file-lock-manager.ts:380-384 | priority descending, then arrival, then id is a strict total order on waiters |
| `LockState.InsertSortedSorts` | packages/daemon/src/file-lock-manager.ts:164-167 | a sorted queue stays strictly sorted when a waiter joins |
| `LockState.NoOvertaking` | packages/daemon/src/file-lock-manager.ts:289-312 | within one call, whoever leaves a queue goes before everybody still in it |
| `LockState.LeftQueueWasGranted` | packages/daemon/src/file-lock-manager.ts:289-312 | with nobody stranded, whoever left a queue during a call was granted its path with a new token, at a moment reached from the state before and leading to the state after, and still owns it |
| `LockState.ServeKeeps` | packages/daemon/src/file-lock-manager.ts:298-310 | shifting a head, granting it and settling its promise keeps the invariant, and makes it the owner of its path and absent from its queue |
| `LockState.GrantFollows` | packages/daemon/src/file-lock-manager.ts:94-113 | a grant onto a path found clear keeps mutual exclusion, distinct tokens and the size bound after any nested releases and grants |
| `LockState.RoomToGrant` | packages/daemon/src/file-lock-manager.ts:69-74 | the cap test at the start of a request leaves room for one lock at its end: 101 at most, whatever nested grants did in between |
| `LockGrowth.GrantKeepsCap` | packages/daemon/src/file-lock-manager.ts:69-110 | a granted request keeps the table within 100 locks if the locks and the paths waited for were together at most 100, or if no expired lock was released on the way |
| `LockGrowth.GrowthAtMost` | packages/daemon/src/file-lock-manager.ts:289-312 | releases and grants add at most one lock for each path waited for |
| `LockGrowth.MovesKeepCap` | packages/daemon/src/file-lock-manager.ts:69-74 | releases and grants alone never lift the table above the cap |
| `LockState.ReplacementIsLive` | packages/daemon/src/file-lock-manager.ts:80-88 | a lock found in place of an expired one just released is live |
| `LockState.PassStep` | packages/daemon/src/file-lock-manager.ts:298-310 | trying one candidate keeps: each head is still to be tried, or blocked, or waits for a path this pass granted |
| `LockState.NextCandidateIsFirst` | packages/daemon/src/file-lock-manager.ts:293-299 | when a candidate is tried, no head of any queue that goes before it could be granted |
| `FileLockManagement.FileLockManager.ReleaseLock` | packages/daemon/src/file-lock-manager.ts:194-198 | unless it throws, granting has reached its fixpoint: the head of every queue is blocked by a live lock of somebody else; if it throws, a waiter is stranded at a full table |
| `FileLockManagement.FileLockManager.GetConflictingLock` | packages/daemon/src/file-lock-manager.ts:340-353 | finds the first live conflicting lock of another holder, or ends with every other holder's lock live and away from the path, releasing expired locks on the way; terminates |
| `FileLockManagement.FileLockManager.Acquire` | packages/daemon/src/file-lock-manager.ts:61-114 | grants with a token above all earlier ones, the capped lease, and the time of the holder's lock that was on the path before, or else the present time; or denies naming a live conflicting lock; or throws, with the state untouched at a full table or a waiter stranded. With nothing expired it grants if and only if no other holder's lock conflicts |
| `LockAnswers.AcquireFile` | packages/daemon/src/file-lock-manager.ts:61-114 | with nothing expired and room in the table, a request for a plain file is granted if and only if nobody else has a live lock on the file or on a scope whose glob it fits; a denial changes nothing and names such a lock |
| `FileLockManagement.FileLockManager.Candidates` | packages/daemon/src/file-lock-manager.ts:293-296 | exactly the heads of all queues, in waiter order |
| `FileLockManagement.FileLockManager.GrantEligibleWaiters` | packages/daemon/src/file-lock-manager.ts:289-312 | repeats passes until all heads are blocked; terminates because every pass that serves somebody shrinks the set of waiters |
| `FileLockManagement.FileLockManager.GrantPass` | packages/daemon/src/file-lock-manager.ts:293-310 | a pass that reports no progress leaves every head blocked; one that reports progress has shrunk the set of waiters, also when a candidate was served by a nested call |
| `FileLockManagement.FileLockManager.TryGrant` | packages/daemon/src/file-lock-manager.ts:298-309 | one candidate: blocked and left alone, or served, or stranded |
| `FileLockManagement.FileLockManager.Serve` | packages/daemon/src/file-lock-manager.ts:300-308 | a candidate already served by a nested call only has its lock renewed; its promise keeps its first outcome |
| `FileLockManagement.FileLockManager.ShiftWaiter` | packages/daemon/src/file-lock-manager.ts:330-338 | takes a waiter off its queue, dropping an emptied queue, and does nothing when it is gone already |
| `FileLockManagement.FileLockManager.TotalWaiters` | packages/daemon/src/file-lock-manager.ts:130-130 | the sum of the queue lengths is the number of waiters |
| `FileLockManagement.FileLockManager.AcquireQueued` | packages/daemon/src/file-lock-manager.ts:119-170 | every outcome: thrown, an immediate answer with the new token, lease and acquisition time that `acquire` gives, list full at exactly 100 waiters, or queued with clamped priority, capped timeout and the next id, and then only while the path is blocked; in each of them queues shrink from the head and grants are recorded as in any call |
| `FileLockManagement.FileLockManager.Release` | packages/daemon/src/file-lock-manager.ts:182-192 | releases for the holder or by force only; the grant loop's fixpoint or a stranded waiter; never throws while the locks and the paths waited for are together at most 101 |
| `FileLockManagement.FileLockManager.TimerFires` | packages/daemon/src/file-lock-manager.ts:151-154 | a timeout takes exactly its waiter out, if still queued, and grants nobody |
| `FileLockManagement.FileLockManager.IsLockedByOther` | packages/daemon/src/file-lock-manager.ts:205-213 | true only with a live conflicting lock of another peer, false only with none; unless it throws, which needs more than 101 locks and paths waited for, no waiter is lost, and the table was left alone or granting is done |
| `FileLockManagement.FileLockManager.GetLock` | packages/daemon/src/file-lock-manager.ts:218-225 | the lock on the path itself while it is live, none when it has expired, and otherwise any live lock of the table that conflicts with the path, or none if there is none; no waiter is lost unless it throws |
| `FileLockManagement.FileLockManager.CleanExpired` | packages/daemon/src/file-lock-manager.ts:279-287 | afterwards no expired lock is left, also none behind the scan; no waiter is lost unless it throws |
| `FileLockManagement.FileLockManager.GetAll` | packages/daemon/src/file-lock-manager.ts:230-241 | lists path and holder of exactly the locks left, all live, although grants renew and append entries during the scan; no waiter is lost unless it throws |
| `FileLockManagement.FileLockManager.Dispose` | packages/daemon/src/file-lock-manager.ts:357-368 | rejects exactly the queued waiters and empties table and queues |
| `FileLockManagement.ClampPriority` | packages/daemon/src/file-lock-manager.ts:371-374 | a priority within range is kept, any other becomes the nearest bound, a missing one the lowest |
| `LockRuns.EnqueueKeeps` | packages/daemon/src/file-lock-manager.ts:130-169 | queueing keeps the invariant, with at most 100 waiters and unique ids |
| `LockRuns.GiveUpKeeps` | packages/daemon/src/file-lock-manager.ts:314-328 | a timeout keeps the invariant, the order of the queue and everybody else's place |
| `LockRuns.DisposeKeeps` | packages/daemon/src/file-lock-manager.ts:357-368 | rejection of all waiters leaves everybody accounted for once |
| `LockHistory.Perform` | packages/daemon/src/file-lock-manager.ts:45-369 | any call of the manager, thrown exceptions included, keeps the invariant; tokens, registers and settled outcomes only advance; nobody is overtaken; each grant was made at a recorded moment of the call, and its holder owns the path afterwards; nobody is stranded while the locks and the paths waited for are together at most 101; the cap of 100 locks is kept while they are at most 100; and only a timeout of a head can leave the next in line waiting for nothing |
| `LockHistory.PerformAll` | packages/daemon/src/file-lock-manager.ts:45-369 | from a new manager every history of calls at any times is a run of such steps, so the laws of runs below hold of it; if before every call the locks and the paths waited for are together at most 101, no waiter is ever stranded |
| `LockRuns.NobodyIsOvertaken` | packages/daemon/src/file-lock-manager.ts:289-338 | over any run: of two waiters for one path that were both queued at some moment, one that has been granted, or stranded, while the other still waits goes before it in priority and order of arrival |
| `LockRuns.GrantsAreFair` | packages/daemon/src/file-lock-manager.ts:289-312 | over any run: each grant happened at a moment of its call at which the waiter headed its queue, its path was clear, every better head of any queue was blocked or its path locked, and everybody who waited before and still waits after was queued; the table then held all locks that were live before the call but for one released, and all locks live then are held after the call; the waiter's holder owns its path at the time of the call |
| `LockRuns.FencingTokensGrow` | packages/daemon/src/file-lock-manager.ts:99-110 | over any run, a lock not in the table at an earlier moment carries a token above every token issued by then, those of released locks included |
| `LockRuns.EntryKeepsTime` | packages/daemon/src/file-lock-manager.ts:94-107 | over any run, while an entry stays in the table, through renewals and nested grants, its path, holder and time of acquisition do not change |
| `LockRuns.AcquisitionTimes` | packages/daemon/src/file-lock-manager.ts:94-107 | over any run, a lock found after a call has the time of a lock of its path and holder before the call, or of the call itself; a new holder's always that of the call |
| `LockRuns.WaitersAreConserved` | packages/daemon/src/file-lock-manager.ts:119-170 | over any run, whoever was queued is in exactly one place: queued, granted a lock on its own path for its own holder, timed out, rejected, or stranded; it never leaves any of the last four; and only the first four are left while, before each call, the locks and the paths waited for are together at most 101 |
| `LockRuns.NobodyIsStranded` | packages/daemon/src/file-lock-manager.ts:289-312 | over any run, no waiter is taken off its queue without an outcome by calls made while the locks and the paths waited for are together at most 101 |
| `LockRuns.NobodyWaitsForNothing` | packages/daemon/src/file-lock-manager.ts:194-200 | over any run in which nobody is stranded and no timeout of a head leaves behind it a waiter whom nothing hinders, the head of every queue has a conflicting entry of somebody else, live or expired, in the table |
| `LockDuty.TimeoutKeepsHeadsIff` | packages/daemon/src/file-lock-manager.ts:314-327 | a timeout keeps that if and only if it took no head, or the last of its queue, or one in front of a waiter that is hindered itself |
| `LockDuty.NobodyIsServed` | packages/daemon/src/file-lock-manager.ts:289-312 | while all heads are blocked, releases of expired locks serve nobody and touch no other entry |
| `LockWaitExamples.TimeoutLeavesWaiter` | packages/daemon/src/file-lock-manager.ts:151-154 | a history from a new manager in which, after a timeout, a waiter is first in line, its path is clear, and nobody serves it |
| `LockRuns.PlaceIsUnique` | packages/daemon/src/file-lock-manager.ts:119-170 | in every state each waiter ever queued has exactly one of these places |
| `LockRuns.OneHolderPerFile` | packages/daemon/src/file-lock-manager.ts:386-433 | in every state, no plain file is spoken for by locks of two holders |
| `LockRuns.EqualPriorityIsFifo` | packages/daemon/src/file-lock-manager.ts:289-312 | over any run under a clock that does not run backwards: of two waiters of equal priority for one path, the one granted while the other still waits is the one that came first |
| `LockGrowth.StrandingNeedsDemand` | packages/daemon/src/file-lock-manager.ts:300-307 | in all states, a waiter can be stranded only if the locks and the paths waited for are together more than 100, and more than 101 if an expired lock was released on the way |
| `LockCap.GrowthExactly` | packages/daemon/src/file-lock-manager.ts:289-312 | for independent waiters the finished grant loop has added exactly one lock for each path waited for |
| `LockCap.StrandsIff` | packages/daemon/src/file-lock-manager.ts:289-312 | for independent waiters and nothing expired, the grant loop strands a waiter if and only if somebody waits and the locks left and the paths waited for are together more than 100 |
| `LockCap.ReleaseIndependent` | packages/daemon/src/file-lock-manager.ts:182-198 | in such states a release throws if and only if that is so |
| `LockCap.RequestSize` | packages/daemon/src/file-lock-manager.ts:61-114 | for independent waiters, the size of the table after a granted request that met an expired lock: the live locks, one for each path waited for, and its own |
| `LockCapExamples.ReleaseLosesWaiter` | packages/daemon/src/file-lock-manager.ts:182-198 | a history from a new manager, with 100 locks and two waiters, whose last release throws and strands a waiter |
| `LockCapExamples.RequestPassesCap` | packages/daemon/src/file-lock-manager.ts:61-114 | a history from a new manager whose last request, made with 99 locks, is granted and leaves 101 |
| `Rooms.DepartKeeps` | packages/signaling/src/rooms.ts:127-145 | a departure keeps the index and caps, and everybody's view loses exactly the one who left |
| `Rooms.DepartSent` | packages/signaling/src/index.ts:425-431 | what a departure sends: the news to each member that remains, and nothing to anybody else |
| `Rooms.DropKeeps` | packages/signaling/src/rooms.ts:235-247 | dropping rooms keeps the index, the caps and the views |
| `Rooms.CleanupKeeps` | packages/signaling/src/rooms.ts:235-247 | idle cleanup keeps the invariant at any time |
| `RoomEvents.CleanupKeepsActive` | packages/signaling/src/rooms.ts:235-247 | exactly the rooms active within the limit remain, unchanged; the members of the others are in no room; nothing else changes |
| `RoomEvents.LastActivityIs` | packages/signaling/src/rooms.ts:230-233 | over one event a room's last activity becomes the time of a join it admits or of a message of a member, and stays as it was otherwise |
| `Rooms.EnterIndex` | packages/signaling/src/rooms.ts:47-121 | an admitted entry keeps the two directions of the index and both caps, and takes an id nobody in the room has |
| `Rooms.WelcomeSent` | packages/signaling/src/index.ts:194-221 | what a join sends: the member list to the newcomer, the news to each member and to nobody else |
| `Rooms.WelcomeKeeps` | packages/signaling/src/index.ts:183-222 | an admitted join with its messages keeps index, caps and agreement of views |
| `Rooms.HandleJoinKeeps` | packages/signaling/src/index.ts:155-222 | a whole join message, leaving first and admitted or refused after, keeps the invariant |
| `RoomEvents.JoinAdmits` | packages/signaling/src/rooms.ts:47-121 | a join gets in if and only if, for a room that others are in, it names the secret, its id is free and there is a place, or, for a new room, there is room for one once the idle ones are gone |
| `RoomEvents.JoinAnswers` | packages/signaling/src/index.ts:155-205 | what the joining socket is sent and where it is afterwards: the first of the refusals that applies, or the infos of everybody else in the room |
| `RoomEvents.JoinTells` | packages/signaling/src/index.ts:155-222 | what a join means for everybody else: who is left is told of it, who is joined is told of it, and members of idle rooms are put out if a new room was wanted |
| `RoomEvents.RoomAfterLeave` | packages/signaling/src/rooms.ts:127-145 | a room outlasts a departure if and only if somebody else is in it, and then keeps its secret, its activity and all others |
| `Rooms.HandleRelayKeeps` | packages/signaling/src/index.ts:242-254 | relaying keeps the invariant |
| `Rooms.BroadcastReachesOthers` | packages/signaling/src/relay.ts:65-74 | the targets of a broadcast are exactly the other members of the sender's room |
| `Rooms.BroadcastDelivers` | packages/signaling/src/relay.ts:48-88 | every other member gets the broadcast once, everybody else's channel is unchanged |
| `RoomEvents.RelayDelivers` | packages/signaling/src/relay.ts:48-88 | who is addressed gets the message under the sender's id, once; the sender gets an error if nobody can be meant; nobody gets anything else |
| `Rooms.OneRoomEach` | packages/signaling/src/rooms.ts:112-118 | no socket is in two rooms or under two ids |
| `Rooms.ViewsConverge` | packages/daemon/src/ws-relay-transport.ts:361-378 | for a client that joined once, handling what is still undelivered turns its peer map into exactly the other members of its room |
| `RoomEvents.ClientKnows` | packages/daemon/src/ws-relay-transport.ts:361-378 | a client knows a peer other than itself if and only if the last message about that peer announced it, and then knows what the message said |
| `Rooms.EntryNeedsSecret` | packages/signaling/src/rooms.ts:55-118 | a room's secret is its first member's and is required of all later ones; an entry displaces nobody and leaves other rooms alone |
| `Rooms.SecretChangesIff` | packages/signaling/src/rooms.ts:47-145 | over one event a room that exists before and after has another secret if and only if its only member joined it again with another one |
| `Rooms.RoomKeepsSecret` | packages/signaling/src/rooms.ts:47-145 | over any run without that event, a room keeps its secret while it exists |
| `Rooms.UnicastReachesNamed` | packages/signaling/src/relay.ts:76-87 | a message to one peer reaches exactly the member of the sender's room with that id |
| `Rooms.RunsGrow` | packages/signaling/src/index.ts:155-290 | runs begin with nobody connected and go on with any event that is possible |
| `Rooms.EveryRunKeeps` | packages/signaling/src/index.ts:155-290 | every state of every run of opens, joins, relays, closes and cleanups satisfies index, caps and agreement |
| `Signaling.RelayServer.SendAll` | packages/signaling/src/index.ts:282-290 | sends one message to each socket of a peer map and to no other |
| `Signaling.RelayServer.LeaveRoom` | packages/signaling/src/rooms.ts:127-145 | takes exactly the socket's entry, drops an emptied room, reports who remains |
| `Signaling.RelayServer.HandleClose` | packages/signaling/src/index.ts:425-431 | the close handler performs the departure |
| `Signaling.RelayServer.CleanupIdleRooms` | packages/signaling/src/rooms.ts:235-247 | drops exactly the rooms idle for longer than the limit and clears their sockets' rooms |
| `Signaling.RelayServer.Join` | packages/signaling/src/rooms.ts:47-121 | each refusal in its order, or the entry with the list of members found |
| `Signaling.RelayServer.HandleJoinMessage` | packages/signaling/src/index.ts:155-222 | performs leave, cleanup, join and all messages of a join |
| `Signaling.RelayServer.RelayData` | packages/signaling/src/relay.ts:48-88 | broadcast, unicast and the error for an unknown target |
| `Signaling.RelayServer.HandleRelayMessage` | packages/signaling/src/index.ts:242-254 | relays and counts as activity of the room |
| `Signaling.RelayClient.HandleNext` | packages/daemon/src/ws-relay-transport.ts:336-378 | the client's peer map is what the messages handled so far make of an empty one |
| `Signaling.PeersConverge` | packages/daemon/src/ws-relay-transport.ts:361-378 | membership agreement between the client object and the server object |
| `RateLimits.Check` | packages/signaling/src/ratelimit.ts:46-74 | accepted if and only if fewer than the limit of the bucket's times lie in the window; violations and disconnection |
| `RateLimits.RecentAre` | packages/signaling/src/ratelimit.ts:50-58 | what a bucket keeps of a list of times are exactly those of the last 60 seconds |
| `RateLimits.Sweep` | packages/signaling/src/ratelimit.ts:76-89 | keeps exactly the buckets with times in the window, pruned |
| `RateLimits.CheckTracks` | packages/signaling/src/ratelimit.ts:46-74 | the pruned bucket decides as the full history of accepted requests would, and goes on tracking it |
| `RateLimits.AcceptKeepsPace` | packages/signaling/src/ratelimit.ts:60-73 | each accepted request lies a full window after the one `limit` places before it |
| `RateLimits.NoWindowOverflows` | packages/signaling/src/ratelimit.ts:46-74 | no window of 60 seconds, wherever it lies, holds more than `limit` requests of a history paced in this way |
| `RateLimits.LimitsAreKept` | packages/signaling/src/ratelimit.ts:38-89 | at any time the limiter has accepted, of every address and in every window of 60 seconds, no more joins and no more messages than the limits |
| `RateLimits.RateLimiter.CheckJoin` | packages/signaling/src/ratelimit.ts:38-40 | a join is accepted if and only if fewer than the limit were accepted in the preceding 60 seconds of the full history; a refusal counts as a violation of its address, and asks for disconnection from the configured number on |
| `RateLimits.RateLimiter.CheckMessage` | packages/signaling/src/ratelimit.ts:42-44 | the same for messages, in a store of their own |
| `RateLimits.RateLimiter.Cleanup` | packages/signaling/src/ratelimit.ts:76-89 | cleanup at any moment changes no later acceptance; it resets the violations of exactly the addresses without accepted requests in the window |
| `Admissions.UnauthTracker.Track` | packages/signaling/src/index.ts:31-56 | a connection is let in if and only if neither cap is reached; the per-address counts stay exact |
| `Admissions.UnauthTracker.Promote` | packages/signaling/src/index.ts:58-72 | joining and closing take a connection off the ledger once, in either order |
| `Admissions.LeaveKeeps` | packages/signaling/src/index.ts:58-68 | the count of a tracked connection's address is always present, and stays exact |
| `Nonces.BuildNonce` | packages/shared/src/crypto.ts:84-93 | fills the 12 bytes with the prefix and the big-endian counter modulo 2^64 |
| `Nonces.ExtractCounter` | packages/daemon/src/ws-relay-transport.ts:120-127 | reads bytes 4 to 12 as a big-endian number below 2^64 |
| `Nonces.NonceRoundTrip` | packages/shared/src/crypto.ts:84-93 | a nonce gives back its prefix always and its counter if and only if that is below 2^64 |
| `Nonces.NonceBytes` | packages/shared/src/crypto.ts:84-93 | each byte: four of prefix, then the counter modulo 2^64, its highest byte first |
| `Nonces.NonceOfParts` | packages/shared/src/crypto.ts:84-93 | any 12 bytes are the nonce of their own prefix and counter |
| `Nonces.NoncesDiffer` | packages/shared/src/crypto.ts:84-93 | nonces are equal if and only if prefixes are equal and counters agree modulo 2^64 |
| `Nonces.NonceCounter.Increment` | packages/shared/src/crypto.ts:169-174 | issues the number after the last one of the peer, from 0 |
| `Nonces.NonceCounter.Validate` | packages/shared/src/crypto.ts:182-189 | accepts exactly counters above the last one, and records only those |
| `Frames.EncodeFrame` | packages/daemon/src/ws-relay-transport.ts:50-80 | the buffer holds type, length, id, nonce and ciphertext, in that order and nothing else |
| `Frames.Layout` | packages/daemon/src/ws-relay-transport.ts:50-80 | each part at its place: type, length of the id with its high byte first, id, nonce, ciphertext |
| `Frames.DecodeFrame` | packages/daemon/src/ws-relay-transport.ts:82-114 | no read outside the input; the parts, or the part that is truncated |
| `Frames.AcceptedIff` | packages/daemon/src/ws-relay-transport.ts:97-105 | accepted if and only if the input holds the announced id and a nonce, hence at least 15 bytes; the error names the id if and only if that is cut |
| `Frames.EncodeUndoesParse` | packages/daemon/src/ws-relay-transport.ts:50-114 | encoding what was decoded gives the same bytes, for every accepted input |
| `Frames.ParseOfEncoded` | packages/daemon/src/ws-relay-transport.ts:63-65 | an id is read back up to its length modulo 2^16 |
| `Frames.ParseUndoesEncodeIff` | packages/daemon/src/ws-relay-transport.ts:50-114 | decoding undoes encoding if and only if the id is shorter than 65536 bytes |
| `Replay.StepKeeps` | packages/daemon/src/ws-relay-transport.ts:382-440 | each asynchronous step of sending and receiving keeps the replay invariant |
| `Replay.ArrivalIsKeptIff` | packages/daemon/src/ws-relay-transport.ts:399-403 | a message is kept for checking if and only if it holds the announced id and a whole nonce, as the frame it encodes |
| `Replay.CheckAcceptsIff` | packages/daemon/src/ws-relay-transport.ts:405-416 | a frame is accepted if and only if its nonce begins with the sender's prefix and its counter is above the sender's last one; a rejected frame moves no counter |
| `Replay.OpeningDeliversIff` | packages/daemon/src/ws-relay-transport.ts:418-449 | a frame reaches the callbacks if and only if it opens to something well formed and is an update or awareness frame |
| `Replay.AtMostOnce` | packages/daemon/src/ws-relay-transport.ts:408-440 | over every run with frames dropped, repeated and reordered: accepted counters of each sender strictly increase, callbacks only for accepted frames under the sender's prefix, at most once for each sender and counter |
| `Replay.NoncesUnique` | packages/daemon/src/ws-relay-transport.ts:231-244 | one daemon's nonces are unique (section 8.2.1 of NIST SP 800-38D) over every run in which counters arriving under its own name are below a bound and the bound and the number of frames sent are together at most 2^64 |
| `Replay.NoncesUniqueIff` | packages/daemon/src/ws-relay-transport.ts:231-244 | if no frame arrives under the daemon's own name, its frames are numbered 0, 1, 2 and so on, and its nonces are unique if and only if it sends at most 2^64 frames |
| `Replay.NoncesRepeatIff` | packages/daemon/src/ws-relay-transport.ts:231-244 | in any run counters rise, and two frames share a nonce if and only if their counters agree modulo 2^64 |
| `Replay.SealedWithin` | packages/shared/src/crypto.ts:169-189 | in any run the counter of the i-th frame is at least i, and ahead of i by no more than the counters that arrived under the own name allow |
| `Replay.OwnFrameRepeatsNonce` | packages/daemon/src/ws-relay-transport.ts:405-416 | a run in which, after one frame under the daemon's own name, the second frame sent has the nonce of the first |
| `Replay.NoncesApart` | packages/shared/src/crypto.ts:26-29 | daemons with different prefixes never share a nonce |
| `Replay.InOrderIsDelivered` | packages/daemon/src/ws-relay-transport.ts:382-440 | a well-formed frame with a new counter passes every check and reaches the callbacks |
| `Replay.DeliveredKinds` | packages/daemon/src/ws-relay-transport.ts:418-449 | over every run only update and awareness frames reach the callbacks |
| `Replay.FrameLink.SendUpdate` | packages/daemon/src/ws-relay-transport.ts:231-244 | takes the next counter and sends the frame under its nonce |
| `Replay.FrameLink.HandleRelayMessage` | packages/daemon/src/ws-relay-transport.ts:399-403 | discards short and malformed input, keeps the rest for checking |
| `Replay.FrameLink.PrefixKnown` | packages/daemon/src/ws-relay-transport.ts:405-416 | checks prefix, then counter; only a frame that passes both goes on |
| `Replay.FrameLink.DecryptionEnds` | packages/daemon/src/ws-relay-transport.ts:418-449 | hands on exactly the frames that open and are of a known type |
| `Gates.PropagationGate.OnLocalUpdate` | packages/daemon/src/sync.ts:255-274 | sends or queues one local update |
| `Gates.PropagationGate.EnqueueGatedUpdate` | packages/daemon/src/sync.ts:710-732 | queues within both bounds; beyond them sends everything queued and then the update |
| `Gates.PropagationGate.DrainGateQueue` | packages/daemon/src/sync.ts:738-749 | drains exactly the paths no longer gated, in queue order |
| `Gates.PropagationGate.DrainFileQueue` | packages/daemon/src/sync.ts:754-765 | sends one path's updates in order, with exact byte and operation counts |
| `Gates.PropagationGate.ForceFlushGateQueue` | packages/daemon/src/sync.ts:770-780 | sends all queued updates in order and empties the queue |
| `Gates.EnqueueKeeps` | packages/daemon/src/sync.ts:710-732 | an update queued or flushed past is neither lost nor doubled, and the bounds hold |
| `Gates.DrainFileKeeps` | packages/daemon/src/sync.ts:754-765 | draining moves updates from queued to sent and keeps the byte ledger exact |
| `Gates.RunConserves` | packages/daemon/src/sync.ts:710-780 | over every run: sent and queued together are exactly what was emitted, the byte count is exact, at most 1000 updates and 50 MB are queued |
| `Gates.DrainPathsInOrder` | packages/daemon/src/sync.ts:738-749 | draining keeps each path's updates in order |
| `GateEvents.LocalUpdateGoes` | packages/daemon/src/sync.ts:255-274 | an open path's update is sent past the queue; a gated one waits behind all others of its path while fewer than 1000 updates wait and it fits into 50 MB; otherwise everything queued is sent, and then the update |
| `GateEvents.DrainFileGoes` | packages/daemon/src/sync.ts:754-765 | draining one path sends what is queued of it, in order, and leaves the rest queued |
| `GateEvents.DrainGateGoes` | packages/daemon/src/sync.ts:738-749 | a tick sends the queues of exactly the paths that are open, in queue order, and keeps the others |
| `GateEvents.TickReleasesIff` | packages/daemon/src/sync.ts:738-749 | path by path: an open path's queue is sent in order and emptied, a gated path's stays and nothing of it is sent |
| `Gates.LocalUpdateInOrderIff` | packages/daemon/src/sync.ts:255-274 | an update keeps the order of its path if and only if it is gated or nothing else of the path is queued |
| `Gates.TwoUpdatesSwap` | packages/daemon/src/sync.ts:255-274 | from the empty gate, a queued update and then a different one sent past it end out of order |
| `Gates.RunInOrder` | packages/daemon/src/sync.ts:255-274 | over a run without such an update, a path's updates reach the transport in order |
| `Pauses.KeyNames` | packages/daemon/src/sync.ts:569-603 | a reason's key names its source whatever colons the id has, and is shared only by equal source and id |
| `Pauses.WhoMayClear` | packages/daemon/src/sync.ts:586-629 | with force the user clears everything, with an id a source only that reason of its own, otherwise a source clears its own reasons and agents also automatic ones |
| `Pauses.ActiveIff` | packages/daemon/src/sync.ts:569-629 | over every run, a reason is active if and only if an addition of it was followed by no permitted removal and no newer addition, and it is that one |
| `Pauses.BufferSound` | packages/daemon/src/sync.ts:403-418 | over every run: empty unless paused, a suffix of the arrivals since the last flush, at most 1000 entries, exact byte count |
| `Pauses.ManifestsPass` | packages/daemon/src/sync.ts:399-402 | over every run, exactly the manifest updates that arrived have been applied, once and in order, however pauses came and went |
| `Pauses.BufferIsLast` | packages/daemon/src/sync.ts:405-416 | for updates of any size, within 50 MB since the last flush the buffer is exactly the last 1000 arrivals |
| `Pauses.SmallUpdatesFit` | packages/daemon/src/sync.ts:403-418 | over every run of updates a thousand of which fit into 50 MB, however long a pause lasts, the buffer is exactly the last 1000 arrivals since the flush and within 50 MB |
| `Pauses.LargeUpdatesCrowd` | packages/daemon/src/sync.ts:406-416 | copies of one larger update, any number of them, never fill the thousand places |
| `Pauses.FitsIff` | packages/daemon/src/sync.ts:406-416 | 50 MB bound the buffer over all runs of updates up to a size if and only if the size is at most 52428 bytes, so that a thousand fit |
| `Pauses.RelayedIsSmall` | packages/shared/src/schemas.ts:101-106 | what the relay's schema lets through is small in this sense |
| `Pauses.NeverGrowingFit` | packages/daemon/src/sync.ts:406-416 | over every run of updates that never grow, the first within 50 MB, the buffer stays within 50 MB |
| `Pauses.FiftyMegabytesIsNoBound` | packages/daemon/src/sync.ts:406-416 | a single update of more than 50 MB, which the shipped relay does not pass, is held beyond 50 MB |
| `Pauses.ReplayedOnceInOrder` | packages/daemon/src/sync.ts:634-642 | over every run, what was passed on and what is held are arrivals at strictly increasing places: in order, none twice |
| `Pauses.NothingLost` | packages/daemon/src/sync.ts:403-418 | when no arrival found the buffer full, every arrival was passed on or is held |
| `Pauses.PauseControl.HandleRemoteUpdate` | packages/daemon/src/sync.ts:397-418 | manifest updates pass at once; others are held while paused, giving up the oldest on overflow |
| `Pauses.PauseControl.Add` | packages/daemon/src/sync.ts:569-574 | a reason is added under its source and id, replacing one with the same key |
| `Pauses.PauseControl.Remove` | packages/daemon/src/sync.ts:586-613 | removes exactly what the source may remove and flushes once no reason is left |
| `Pauses.PauseControl.FlushBufferedUpdates` | packages/daemon/src/sync.ts:634-642 | replays the buffer once, in order |
| `Manifests.StepKeeps` | packages/daemon/src/manifest.ts:105-158 | setting, deleting and a firing timer keep: every path exists as intended or a running timer will still mark it deleted |
| `Manifests.CheckRenameKeeps` | packages/daemon/src/manifest.ts:198-215 | a rename keeps that invariant |
| `Manifests.QuietIsIntended` | packages/daemon/src/manifest.ts:105-158 | once no timer runs, exactly the intended paths exist, however equal hashes and renames interleaved |
| `Manifests.LatestDecides` | packages/daemon/src/manifest.ts:105-158 | the latest operation on a path decides: deleted paths are gone, set paths exist if and only if no timer for them was left running |
| `Manifests.LatestIsRecorded` | packages/daemon/src/manifest.ts:105-158 | if no earlier deletion of the path was waiting, what is recorded once no timer runs is exactly what was set, or after a deletion what was there before, marked as gone |
| `Manifests.SetTouches` | packages/daemon/src/manifest.ts:105-130 | setting a path touches its entry, and one waiting deletion of the same content, if the path is set as existing; no other path, timer or window |
| `Manifests.DeletionWaits` | packages/daemon/src/manifest.ts:137-158 | a deletion leaves the entry as it is, starts a timer of its own beside all others, and takes the window of its content; a path that is not listed cannot be deleted |
| `Manifests.FiringClosesWindow` | packages/daemon/src/manifest.ts:147-154 | a timer that fires closes the window of its content, for later deletions too, and no other |
| `Manifests.DeletionsCommit` | packages/daemon/src/manifest.ts:137-158 | from the start, over all runs, a listed path whose latest operation was a deletion is recorded as gone once no timer runs |
| `Manifests.RenameClosesWindow` | packages/daemon/src/manifest.ts:198-215 | a rename marks the old path, ends its timer and its window, and touches nothing else, so that setting the old path again stands |
| `Manifests.RecreatedIsLost` | packages/daemon/src/manifest.ts:145-155 | a path deleted and set again with other content is recorded as gone when the timer fires |
| `Manifests.ManifestManager.Set` | packages/daemon/src/manifest.ts:105-130 | performs the rename check and the entry; reports the old path of a rename |
| `Manifests.ManifestManager.Delete` | packages/daemon/src/manifest.ts:137-158 | starts a timer with a snapshot and takes the hash's pending entry |
| `Manifests.ManifestManager.TimerFires` | packages/daemon/src/manifest.ts:147-154 | records the snapshot as deleted and clears the hash's pending entry, whoever's it is |
| `Manifests.ManifestManager.CheckRenamed` | packages/daemon/src/manifest.ts:198-215 | ends the pending deletion of this hash, if there is one, and reports its path |
| `Diffs.ComputeDiff` | packages/shared/src/diff.ts:25-52 | the operations of the script at their places in the old text; none for equal texts |
| `Diffs.OpOfPiece` | packages/shared/src/diff.ts:30-51 | every deletion and insertion of the script has one operation, in script order, at its place in the old text; there are no others |
| `Diffs.SortDescSorts` | packages/shared/src/diff.ts:65-66 | the sort is descending, loses nothing, and keeps operations at one index in order |
| `Diffs.OpsProduce` | packages/shared/src/diff.ts:25-75 | for every script, sorting and applying its operations stays inside the text and gives the text described in closed form |
| `Diffs.RoundTripIff` | packages/shared/src/diff.ts:25-75 | for every script, the result is the new text if and only if the insertions at each place come out in order |
| `Diffs.RoundTrip` | packages/shared/src/diff.ts:25-75 | for scripts in normal form the old text becomes exactly the new one |
| `Diffs.InsertBeforeDeleteFails` | packages/shared/src/diff.ts:65-74 | an insertion in front of a deletion is lost |
| `Diffs.ApplyDiffToYText` | packages/shared/src/diff.ts:62-75 | edits the text in place as the sorted operations say |
| `Diffs.ComputeAndApply` | packages/shared/src/diff.ts:84-92 | the text becomes the new one if and only if the script is faithful, and always for normal form |
| `PatchBroker.SplitLosesNothing` | packages/cli/src/patch-broker.ts:101-102 | splitting at line feeds and joining gives the text back |
| `PatchBroker.LinesOfRender` | packages/cli/src/patch-broker.ts:133-134 | exactly when the lines written are read back as the same lines |
| `PatchBroker.FindLine` | packages/cli/src/patch-broker.ts:137-142 | the first equal line at or after the start, or -1 if and only if there is none |
| `PatchBroker.PatchLines` | packages/cli/src/patch-broker.ts:104-133 | the loop computes the update or the line that was not found |
| `PatchBroker.ApplyUpdateLines` | packages/cli/src/patch-broker.ts:100-135 | succeeds if and only if the named lines embed into the old lines; what it gives is an application of the patch |
| `PatchBroker.UpdateSucceedsIff` | packages/cli/src/patch-broker.ts:100-142 | a patch applies if and only if its context and removal lines are a subsequence of the old lines |
| `PatchBroker.FailureNamesFirst` | packages/cli/src/patch-broker.ts:107-127 | a failure reports the first context or removal line that finds no place behind those before it, and which of the two it is |
| `PatchBroker.GreedyIsLeftmost` | packages/cli/src/patch-broker.ts:137-142 | the greedy places are the leftmost of all ways to place the named lines |
| `PatchBroker.UpdateIsLeftmost` | packages/cli/src/patch-broker.ts:104-133 | what is produced is the patch carried out at these places |
| `PatchBroker.UpdateEdits` | packages/cli/src/patch-broker.ts:107-133 | the result keeps unlisted lines, and each patch line does its part in turn |
| `PatchBroker.EditsLength` | packages/cli/src/patch-broker.ts:107-133 | old lines less removals plus additions |
| `PatchBroker.FullPatch` | packages/cli/src/patch-broker.ts:107-133 | a patch that lists every old line makes exactly its context and added lines, in order |
| `PatchBroker.InverseUndoes` | packages/cli/src/patch-broker.ts:107-133 | a full patch is undone by the patch with additions and removals exchanged |
| `PatchBroker.EmptyPatch` | packages/cli/src/patch-broker.ts:100-135 | the empty patch is the identity on every text |

## Left out

- Release: that it does not throw while the locks and the paths waited for are together at most 101 is sufficient, and no larger number would do for all states (ReleaseLosesWaiter has 102). It is the exact condition where nothing has expired and waiters are independent (ReleaseIndependent); for waiters that hinder each other, whether a release throws above it depends on the whole course of the grant loop.
- Acquire: likewise, that it keeps the cap while the locks and the paths waited for are together at most 100 is sufficient, and no larger number would do for all states (RequestPassesCap has 101); RequestSize is exact for independent waiters.
- DirectoriesConflictIff: for directories without wildcards and line terminators in their names; for other globs the overlap test is only shown not to miss a shared path.
- ViewsConverge: only for sockets that joined once; after a second join the program keeps entries of the old room, since the client does not clear its map.
- NoncesUnique: for one life of the counter table; disconnecting replaces it. For frames under the own name it asks for a bound on their counters, which is sufficient; NoncesRepeatIff is exact.
- AtMostOnce: for one life of the counter table; frames validated before a disconnect and opened after it are not covered.
- BufferIsLast: for updates that are not small, above 50 MB since the last flush only the suffix property of BufferSound is stated.
- DrainGateQueue: the paths that are gated are an arbitrary predicate; recent remote edits, awareness and locks that decide it are not modelled.
- Scopes: characters are those of the pattern and path; the escaping of literals and the regular expression engine are not modelled. A character class `[...]` is literal text in the match, as the program escapes it, and a wildcard for the static prefix.
- Lock event listeners that call back into the manager, and the events themselves: every emit is a step of its own.
- The clock within one synchronous call is one value; the program reads it anew at each test.
- The comparison of waiter ids by locale: ids are padded to ten digits, and more than 10^10 waiters are not considered. A priority that is not an integer is not modelled.
- The listing of waiters, and the periodic timers that call the expiry check, the gate's drain and the idle cleanup: a run may perform these steps at any time.
- A waiter's timer is a step that may come at any time after queueing; that it comes no earlier than its timeout is not stated.
- The order of peers inside a `joined` message, join times and the activity log.
- Checks in front of a join or relay: message size, JSON, schema and rate limit. The limiter is proved on its own.
- The close event of a socket closed by idle cleanup comes later, as a separate step, when the socket is in no room any more.
- Peer-to-peer signal messages, which the relay forwards like unicast data.
- Encryption, hashing and base64: decryption succeeds or fails by an arbitrary choice, prefixes are an arbitrary function of the peer id, file ids are their bytes. Well-formedness of awareness JSON is part of that choice.
- Yjs documents and merging: the text is a string, the manifest a map, and only local manifest operations are modelled.
- The diff algorithm: any edit script between the two texts is allowed.
- Sending errors and a closed socket: `sent` is what was handed to the transport.
- What happens to a remote update after the pause check: the state check, path checks, merging and writing the file.
- Parsing of patches, path handling and writing of patched files.
- Rename events and counts of existing files, which follow from the entries.
- The edge runtime's copy of the relay, dashboards, authentication, the command line, IPC, file watching, git detection, ignore filters and reconnect delays: input and output, or only easy members.
