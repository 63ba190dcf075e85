# WhereHouse in Dafny

A model of the parts of WhereHouse whose behaviour is decided over whole runs or
whole graphs, with proofs of what they promise.

* **Offline queue** (`QueueModel`, `QueueInvariant`, `QueueTheorems`,
  `QueueService`, `QueueSync`).  The phone's create queue and the server's
  idempotent `create_item` are one state machine.  A step is the code between two
  awaits, one statement, one server transaction, or a crash.  A statement takes
  effect when it is issued, and callbacks of the database promise run in the order
  in which they were registered.  `OfflineQueue` is the same in imperative form; its
  recorded history is a run of the machine, so every theorem applies to it.  A row
  that is past its epoch check may still be sent after a quarantine; the theorems
  say so and bound the number of such rows.
* **Locations** (`Forest`, `LocationModel`, `LocationInvariant`, `LocationStore`,
  `PathResolvers`, `InventoryWalks`, `RollUp`).  Parent links, the requests that
  change them, the five walkers over them, and rolled-up quantities.
* **Checkouts** (`CheckoutModel`, `CheckoutInvariant`, `CheckoutTheorems`,
  `CheckoutService`).  Sessions as concurrent transactions with row locks,
  revisions and unique indexes, and the same requests performed alone.
* **Borrowers** (`Borrowers`, `BorrowerDesk`, `BorrowerRaces`, `BorrowerCommits`).  Invitations, edits
  and claims under a clock that does not run backwards, one after another and
  overlapping with row locks.
* **Identifiers** (`Payload`, `IdentifierModel`, `IdentifierService`,
  `IdentifierRuns`).  Pending, active and revoked identifiers, writing an NFC tag
  with a fault possible at every step, and the recovery tap.
* **Backups** (`Paths`, `BackupModel`, `BackupArtifact`, `BackupRestore`,
  `RestoreSources`).  An archive is a sequence of named contents; a digest stands
  for its bytes.
* **Search, hub, cache, crop** (`LikeSearch`, `RealtimeHub`, `InventoryCache`,
  `CacheRefresh`, `CacheRace`, `ImageCrop`).

`Common` holds small shared types.  `dafny verify dfyconfig.toml` checks
everything.

Times, new row ids, generated public ids, the outcome of a password check and the
faults of the network, the tag and the transport are parameters, and so are the
files of the machine that restores a backup and the keys its storage takes.  SHA-256 is taken
as injective.

## What does not hold

The code departs from the plain statement of a property in these places; each is
stated exactly.

* Two container placements that overlap can close a cycle: exactly when each child
  lies on the other parent's climb (`InterleavedPlacementsClose`).
* The two path resolvers differ exactly when a container's zone lies in another
  workspace (`ResolversAgree`).
* A revoked identifier comes back exactly when an activation that read it earlier
  commits later (`RevocationHoldsExactly`).
* A backup fails its own verification exactly when a media key is not a canonical
  path or a workspace has no type (`BuiltIsAccepted`, `DoubledSlashIsRefused`).
* An accepted artifact may fail to restore, before anything is written (its names
  nest, its manifest is no text, its media unpack to a file) or part way (`Restore`,
  `DotIsNoDirectory`, `NumberStops`).
* A restored medium is the restoring machine's file, not the archive's, exactly for
  entries that are put under a key that begins with a slash
  (`ArchiveDecidesExactly`, `HostnameIsPut`).
* A link can have another email than its user: exactly when an edit slips into a
  running claim after the invitation has expired (`LinkEmailExactly`,
  `EveryClaimCanSlip`, `EditSlipsIntoClaimAfterExpiry`).
* A claim and an invitation of the same profile lock its rows in opposite order and
  can deadlock; no other requests can over those rows (`DeadlockExactly`, `EveryClaimCanDeadlock`).
* A draft queued during a cache refresh can be lost from the cache and one removed
  can come back (`DraftIsLost`, `DraftComesBack`): exactly when the server does not
  list what a draft that joined or left the queue in between had cached
  (`CurrentUnlessDraftsMoved`, `CurrentExactly`).
* A draft queued again under an operation id that holds an item made from something
  else is never accepted (`TakenRowAlwaysConflicts`); unless another client takes
  the operation id meanwhile, no other row is refused as a conflict
  (`UnchangedRowNeverConflicts`, `ConflictExactlyWhenTaken`).
* A load event does not clamp the pan again: after it the crop square is outside the
  new picture exactly when the pan left by earlier gestures is outside its bounds,
  until the next drag or zoom (`SquareAfterLoad`, `DragBeforeLoadLeavesImage`).
* `verify_artifact` lets an attribute error escape exactly for a manifest that is
  JSON but not an object, for such an index under a manifest of the known format,
  and for a manifest that agrees in everything but has an encryption field that is
  not an object; the model answers `Unexpected` there (`VerifyArtifact`,
  `EncryptionDecides`).

## Model

| member | source | states |
|---|---|---|
| `QueueTheorems.AtMostOneItemPerOperation` | backend/app/application/items/capabilities.py:203-273 | In no state of any run (crashes, lost replies, restarts, retries, drafts queued again, other clients) do two items share a workspace and operation id. |
| `QueueTheorems.DeletedOnlyWhenCreated` | apps/mobile/src/services/itemQueue.ts:104-108 | A row leaves the queue only when its stored remote id names an item of its workspace created from exactly its payload; unless no request for the operation was ever made (an id kept by an older app version), that item carries the operation id. |
| `QueueTheorems.UnchangedRowNeverConflicts` | backend/app/application/items/capabilities.py:212-225 | A row stored while the server holds nothing under its operation id, or only the item made from the same payload (a draft queued again after its sync, a lost reply to an older app), never has a request made since refused as an idempotency conflict, for as long as it is queued and however often it is retried, unless another client uses its operation id for something else. |
| `QueueTheorems.UnusedOperationNeverConflicts` | backend/app/application/items/capabilities.py:212-225 | If the operation id was unused when the row was stored, no request for it made before is refused as a conflict either. |
| `QueueTheorems.TakenRowAlwaysConflicts` | backend/app/application/items/capabilities.py:212-222 | Of a row stored while its operation id holds an item made from something else no request made since is ever accepted, and every look-up for one of them answers with a conflict. |
| `QueueTheorems.ConflictExactlyWhenTaken` | backend/app/application/items/capabilities.py:212-225 | Of a row's requests that are accepted or refused as a conflict, exactly those of a row whose operation id held an item made from something else as it was stored are refused. |
| `QueueTheorems.QuarantineHolds` | apps/mobile/src/services/itemQueue.ts:49-58 | When the quarantine update takes effect every queued row is permanently failed and no sync started since the revocation, and no failure still to be recorded, refers to one of them. |
| `QueueTheorems.QuarantineIsPermanent` | apps/mobile/src/services/itemQueue.ts:49-58 | Every row queued when the quarantine update took effect stays permanently failed through all later syncs, crashes and restarts while it is in the queue. |
| `QueueTheorems.QuarantinedRowsAreNeverSent` | apps/mobile/src/services/itemQueue.ts:80-90 | Rows that no running sync had past its epoch check when the quarantine took effect are never deleted, never leave quarantine, and no request is ever made for them again. |
| `QueueTheorems.AtMostOneInHandPerSync` | apps/mobile/src/services/itemQueue.ts:80-98 | The rows past their epoch check number at most one per running sync. |
| `QueueTheorems.SyncedDraftStaysGone` | apps/mobile/src/services/database.ts:110-114 | A draft that was synced and deleted is never stored again by the migration of old queues; it returns only if it is queued anew. |
| `QueueTheorems.RetryDelay` | apps/mobile/src/services/queuePolicy.ts:10-13 | The retry delay is 2^attempt seconds up to 300, at least one second, and never shrinks from one attempt to the next; the cap on the exponent never shows. |
| `QueueInvariant.StepKeepsInv` | apps/mobile/src/services/itemQueue.ts:24-128 | Every step of the app process, of a running sync, of the network and of the server keeps the invariant that ties rows, running syncs, waiting callbacks, requests and items together. |
| `QueueInvariant.RunKeepsInv` | apps/mobile/src/services/itemQueue.ts:24-128 | The invariant holds in every state of every run. |
| `QueueService.OfflineQueue.constructor` | apps/mobile/src/services/database.ts:1-3 | A fresh process over any old queue contents starts a run of the machine. |
| `QueueService.OfflineQueue.QueueItem` | apps/mobile/src/services/itemQueue.ts:24-35 | Refuses an unknown draft version and changes nothing; otherwise an operation id that is not queued yet gets the row of an untried create operation, pending, due at once, without a remote id, with this workspace and draft, which every list of due rows has at every time; every other row is as it was. |
| `QueueService.OfflineQueue.QuarantinePendingItemsAfterCredentialRemoval` | apps/mobile/src/services/itemQueue.ts:49-51 | Raises the revocation epoch at once, leaves rows and syncs alone, and lets the update wait for the database. |
| `QueueService.OfflineQueue.SyncPendingItems` | apps/mobile/src/services/itemQueue.ts:66-77 | A workspace that is syncing changes nothing; any other gets one sync that remembers the epoch it started in and waits for its row list. |
| `QueueService.OfflineQueue.RunContinuation` | apps/mobile/src/services/itemQueue.ts:52-58 | The next waiting callback, and only it, runs.  A row list holds exactly the pending or retryable rows of the workspace whose retry time has come, and its sync takes them as they are; a recorded failure changes the status and retry time of its row and nothing else, and its sync pauses or goes on with the next row; the quarantine leaves every row permanently failed, changing nothing else in it. |
| `QueueService.OfflineQueue.Crash` | apps/mobile/src/services/itemQueue.ts:12-13 | A crash loses the running syncs, the epoch and all waiting callbacks, and keeps every table. |
| `QueueService.OfflineQueue.InitializeDatabase` | apps/mobile/src/services/database.ts:109-124 | Queued operations stay, those in progress as to be retried; an old draft whose id was not queued is a pending, untried create with its workspace, payload and remote id; an old update not stored yet is a permanently failed operation under the prefixed id; nothing else is added. |
| `QueueService.OfflineQueue.LoopHead` | apps/mobile/src/services/itemQueue.ts:80-90 | The sync goes on exactly when a row is left and the epoch has not moved; a create operation of version 1 with a draft of version 1 is then in progress with one attempt more, and any other row is untouched and to be recorded as given up. |
| `QueueService.OfflineQueue.SendOrSkip` | apps/mobile/src/services/itemQueue.ts:91-95 | Without a remote id exactly one request more is out, with the row's workspace, operation id and payload; with one nothing is sent. |
| `QueueService.OfflineQueue.TakeReply` | apps/mobile/src/services/itemQueue.ts:96-98 | The row remembers the item id of the accepted reply and is otherwise, like every other row and request, as it was. |
| `QueueService.OfflineQueue.Fail` | apps/mobile/src/services/itemQueue.ts:112-121 | After a revocation the sync stops and nothing is recorded; otherwise one failure of this row is to be recorded: to be retried exactly without a status or for 401, 403, 408, 425, 429 and 500 upwards, 2^attempts seconds ahead up to 300, and the sync pauses exactly for 401 and 403. |
| `QueueService.OfflineQueue.DeleteRow` | apps/mobile/src/services/itemQueue.ts:104-108 | Removes the row and its old copy and no other, at which point the server holds the item made from its draft. |
| `QueueService.OfflineQueue.LookUp` | backend/app/application/items/capabilities.py:211-222 | An operation id already used is answered with its item when it was made from the same payload, and with a conflict otherwise; an unused one stays unanswered, and no item changes. |
| `QueueService.OfflineQueue.Insert` | backend/app/application/items/capabilities.py:241-266 | On a used operation id nothing is created and the answer comes from its item; otherwise exactly one item is added, made from the request, and the reply names it unless publishing fails. |
| `QueueService.OfflineQueue.SyncThrows` | apps/mobile/src/services/itemQueue.ts:66-77 | An exception ends the sync of the workspace and no other. |
| `QueueService.OfflineQueue.ContinuationThrows` | apps/mobile/src/services/itemQueue.ts:126-129 | A callback whose statement fails writes nothing and ends the sync that waited for it; a failed quarantine ends none. |
| `QueueService.OfflineQueue.OtherClientCreates` | backend/app/application/items/capabilities.py:211-243 | An item of another client is stored exactly when its operation id, if it has one, is unused in the workspace. |
| `QueueService.OfflineQueue.ArchiveItem` | backend/app/application/items/capabilities.py:276-287 | A deleted item stays stored, archived, with its operation id. |
| `QueueSync.CreateRemote` | apps/mobile/src/services/itemQueue.ts:92-98 | The outcome of the create call, exactly: an item known from before needs none; a call that is lost either way fails without a status, a refusal with its status; an operation id already used gives its item when that was made from the same payload and 409 otherwise; and a failed publication gives 500.  A known item id is stored with the row; other rows stay, and at most one item is added, under the row's operation id. |
| `QueueSync.FailRow` | apps/mobile/src/services/itemQueue.ts:126-129 | The failed row is to be retried after 2^attempts seconds up to 300, or is given up, as its status says, and nothing else in it changes; the sync pauses exactly for 401 and 403 and otherwise goes on. |
| `QueueSync.DeliverRow` | apps/mobile/src/services/itemQueue.ts:99-111 | From a known item id on: a failed upload is written to the row, which keeps the item id; otherwise the row is gone, and a photo file that stays counts as a failure; the result says which. |
| `QueueSync.SyncRow` | apps/mobile/src/services/itemQueue.ts:80-123 | One pass of the loop under any choice of faults: only this row changes, and it, the result and the sync end exactly as the verdict on the row says, which follows from its kind, its remote id, the items on the server and the fault. |
| `QueueSync.SyncPendingItemsOnce` | apps/mobile/src/services/itemQueue.ts:74-124 | The whole loop with its result, exactly: it takes the due rows of the workspace and no others; each row handled ended as the verdict on it says, judged on the queue and the items at the start: gone with its item made from its draft, or waiting with the status, attempt count, retry time and remote id its failure leaves, or given up; synced, failed and needsAttention count those verdicts; the sync pauses exactly at the first row whose failure is 401 or 403, and otherwise handles every row; rows not reached are untouched. |
| `QueueSync.AllGoodMeansEmpty` | apps/mobile/src/services/itemQueue.ts:74-124 | When no row is of an unknown kind, none conflicts and nothing fails, the sync leaves none of the due rows and counts them all as synced. |
| `Forest.LinkAcyclic` | backend/app/application/locations/capabilities.py:174-186 | Linking a container under a parent keeps the nesting a forest exactly when the container is not on the parent's climb. |
| `LocationStore.CheckAncestors` | backend/app/application/locations/capabilities.py:174-186 | On any stored links, cyclic ones included, the walk terminates; it is clear exactly when the parent's climb ends without meeting the container, and reports a closing move exactly when some walk up from the parent meets it. |
| `LocationStore.Store.CreateArea` | backend/app/api/v1/routes/locations.py:75-87 | Stores an area exactly in an accessible workspace, and keeps the store sound. |
| `LocationStore.Store.CreateZone` | backend/app/api/v1/routes/locations.py:135-145 | Stores a zone exactly in a known area of an accessible workspace, and keeps the store sound. |
| `LocationStore.Store.PlaceContainer` | backend/app/application/locations/capabilities.py:147-206 | Accepts exactly the moves between known containers of one accessible area and zone that keep the nesting free of cycles; otherwise nothing changes. |
| `LocationStore.Store.CreateContainer` | backend/app/api/v1/routes/locations.py:171-187 | Accepts exactly an accessible area with a zone of that area, tells why not, and keeps the store sound. |
| `LocationStore.Store.UpdateContainer` | backend/app/api/v1/routes/locations.py:190-209 | May change the zone within the area without moving the children, and keeps the store sound. |
| `LocationStore.Store.RemovePlacement` | backend/app/api/v1/routes/locations.py:343-357 | Removes one nesting link and keeps the rest. |
| `LocationStore.Store.DeleteContainer` | backend/app/api/v1/routes/locations.py:254-264 | The container is gone with its links and exactly the item placements in it, every other row is as it was, and the store stays sound. |
| `LocationStore.Store.DeleteArea` | backend/app/api/v1/routes/locations.py:124-131 | The area is gone with exactly its zones, its containers, their links and the item placements in any of them, every other row is as it was, and the store stays sound. |
| `LocationStore.Store.CreateItem` | backend/app/application/items/capabilities.py:224-243 | Accepts exactly an accessible workspace and a placement, if any, whose area, zone or container is stored and lies in that workspace; tells a destination that is not stored from one elsewhere. |
| `LocationStore.Store.PlaceItem` | backend/app/application/items/capabilities.py:303-331 | Moving or updating an item is accepted exactly when the area, the zone with its area, or the container with its area is stored and lies in the item's workspace, which must be accessible; a destination that is not stored is told from one elsewhere; an update refuses archived items. |
| `LocationStore.Store.DeleteItem` | backend/app/application/items/capabilities.py:276-287 | Archives exactly a live item in reach. |
| `LocationStore.Store.ResolveWorkspace` | backend/app/application/items/capabilities.py:469-544 | In every state reached by serial requests, resolving all placements of a workspace succeeds and gives each its path. |
| `LocationStore.InterleavedPlacementsClose` | backend/app/application/locations/capabilities.py:174-186 | The walk takes no lock: of two placements accepted on the same links, the result has a cycle exactly when each child lies on the other parent's climb. |
| `LocationStore.PlacedIntoEachOther` | backend/app/application/locations/capabilities.py:174-186 | Two containers placed into each other at the same time close a cycle. |
| `LocationInvariant.SoundPlacementsResolve` | backend/app/application/items/capabilities.py:413-466 | In a sound store every item placement resolves, with the same path from both resolvers. |
| `LocationInvariant.DeleteAreaKeepsSound` | backend/app/models/core.py:176-224 | The ON DELETE rules for an area leave a forest within areas and placements within workspaces. |
| `LocationInvariant.DeleteContainerKeepsSound` | backend/app/models/core.py:210-224 | The ON DELETE rules for a container leave a forest within areas and placements within workspaces. |
| `LocationModel.ResolversAgree` | backend/app/application/items/capabilities.py:413-544 | For every stored graph, cyclic or malformed, and every live item, the one-at-a-time and the batch resolver give the same answer exactly unless the container's zone lies in another workspace. |
| `PathResolvers.ResolveItemLocation` | backend/app/application/items/capabilities.py:413-466 | The one-at-a-time walk terminates on any graph; a missing or archived item and a foreign workspace are refused as such, and otherwise it gives a text exactly when the rows have that path: the destination lies in the item's workspace, and a container and all it is nested in are in use and in one area of it. |
| `LocationModel.PlacementPathMeans` | backend/app/application/items/capabilities.py:413-466 | The path of a placement is the text that the rows show it under: an area, a zone after its area, or a container after everything it is nested in. |
| `LocationModel.PathTextSteps` | backend/app/application/items/capabilities.py:462-466 | A container is shown as what holds it, an angle bracket and its own name, all the way out to its zone and area. |
| `PathResolvers.LoadedContainerWalk` | backend/app/application/items/capabilities.py:501-525 | The batch walk over preloaded rows terminates on any graph and gives the path of the unique climb, or fails. |
| `PathResolvers.ResolveItemLocations` | backend/app/application/items/capabilities.py:469-544 | The list is resolved placement by placement and one failure fails it. |
| `PathResolvers.ResolveManyMeans` | backend/app/application/items/capabilities.py:527-544 | The list resolves exactly when each placement does, and each id then has the path of its last entry. |
| `PathResolvers.PathFor` | backend/app/application/locations/capabilities.py:118-130 | The walk of the search terminates on any links; it fails exactly when the climb meets an unknown container or does not end, and otherwise shows the names of the climb after the area and the zone, whichever area that is of. |
| `InventoryWalks.ContainerDetail` | apps/mobile/src/utils/itemLocations.ts:13-29 | On any rows, cyclic ones included, the phone's walk stops at the one place where the links end, leave the list or repeat, and shows the names on the way. |
| `InventoryWalks.WebSegments` | apps/web/src/components/wherehouse/locationPaths.ts:7-33 | On any rows the web walk stops at that same kind of place and lists the segments on the way. |
| `InventoryWalks.StopsOnce` | apps/mobile/src/utils/itemLocations.ts:20-27 | There is only one place where a walk can stop. |
| `InventoryWalks.PhoneShowsServerPath` | apps/mobile/src/utils/itemLocations.ts:13-29 | For every valid inventory the phone shows the server's path followed by the container code. |
| `InventoryWalks.WebShowsServerPath` | apps/web/src/components/wherehouse/locationPaths.ts:18-33 | For every valid inventory the web shows the server's segments. |
| `InventoryWalks.ListedAtParent` | apps/mobile/src/utils/locationContents.ts:24-60 | Every container appears in the contents of its parent location. |
| `InventoryWalks.ParentIsKnown` | apps/mobile/src/utils/locationContents.ts:46-60 | On any downloaded lists, malformed ones included, going up leads only to a row that was downloaded, and never past an area. |
| `InventoryWalks.ClimbingReachesArea` | apps/mobile/src/utils/locationContents.ts:46-60 | Climbing parent locations from a container reaches its area after its ancestors and the zone. |
| `RollUp.ItemQuantityInContainer` | apps/mobile/src/utils/locationContents.ts:62-78 | On any links, cyclic ones included, the loop terminates and totals exactly the items in containers from which some chain of links reaches the given one. |
| `RollUp.QuantityAddsUp` | apps/mobile/src/utils/locationContents.ts:62-78 | On a forest a container's quantity is that of its direct items plus the sum over its children. |
| `RollUp.RootsHoldEverything` | apps/mobile/src/utils/locationContents.ts:62-78 | On a forest the quantities of the roots add up to everything placed in containers. |
| `CheckoutTheorems.NoDeadlock` | backend/app/application/checkouts/capabilities.py:185-195 | With any number of concurrent requests over any item sets, no reachable lock state is a deadlock. |
| `CheckoutTheorems.SomeRequestCanMove` | backend/app/application/checkouts/capabilities.py:318-325 | While requests run, at least one of them can go on: the session or item it is to lock next is free. |
| `CheckoutTheorems.SameRevisionSameContent` | backend/app/application/checkouts/capabilities.py:198-230 | Two committed states of a session with the same revision have the same borrower, due date, note, items and status. |
| `CheckoutTheorems.FinalizeTakesRevision` | backend/app/application/checkouts/capabilities.py:296-360 | A finalization with revision r that commits opens exactly one checkout for each item the session held in any state with revision r and completes that session. |
| `CheckoutTheorems.CommitMatchesExpected` | backend/app/application/checkouts/capabilities.py:209-210 | An update or finalization commits only on exactly the revision it expected, of an active session of its caller, and raises it by one. |
| `CheckoutTheorems.NoLostUpdate` | backend/app/application/checkouts/capabilities.py:209-230 | Of two commits on a session that expect revisions the later one expected a higher one, so none overwrites what it has not seen. |
| `CheckoutTheorems.EndedIsFinal` | backend/app/application/checkouts/capabilities.py:185-195 | A completed or abandoned session never changes again. |
| `CheckoutTheorems.CommitChanges` | backend/app/application/checkouts/capabilities.py:225-290 | A committed request changes its own session as asked and nothing else in it, an update to the borrower it was let choose, and no other session. |
| `CheckoutTheorems.CommitWasAllowed` | backend/app/application/checkouts/capabilities.py:185-341 | Every committed request was validated before, on the session row it commits to, against rows that allowed it then: an item added was stored in the workspace, not archived and not out; a borrower chosen was one the caller may choose; a finalization had the expected revision, an item, and a borrower of the workspace, for a borrower himself. |
| `CheckoutTheorems.AbortLeavesRows` | backend/app/application/checkouts/capabilities.py:185-341 | A request can fail at any point; exactly its own locks are then free again, and no row and no other request has changed. |
| `CheckoutTheorems.AllowedIsAccepted` | backend/app/application/checkouts/capabilities.py:185-341 | Validation refuses no request that those rows allow. |
| `CheckoutTheorems.FinalizedItemsAreLendable` | backend/app/application/checkouts/capabilities.py:314-341 | In every run, when a finalization commits, each of its items is stored in the session's workspace, not archived, and has no open checkout: what it checked under the item locks still holds. |
| `CheckoutTheorems.AtMostOneOpen` | backend/app/models/core.py:395-449 | Under every interleaving no item has two open checkouts and no user two active sessions in a workspace. |
| `CheckoutTheorems.FinalizeLosesOnlyToDirect` | backend/app/application/checkouts/capabilities.py:318-342 | Once a finalization has checked an item under its lock, only a direct checkout of that item can open one before it commits. |
| `CheckoutInvariant.StepKeepsInv` | backend/app/application/checkouts/capabilities.py:185-360 | Every step of every request keeps the lock table exact and what was read under a session lock current. |
| `CheckoutInvariant.RunKeepsInv` | backend/app/application/checkouts/capabilities.py:185-360 | The lock table, the rows read under lock and both uniqueness rules hold in every reachable state. |
| `CheckoutService.Service.GetOrCreateActiveSession` | backend/app/application/checkouts/capabilities.py:135-182 | Returns the one active session of the caller or creates it empty at revision 1, for a borrower with his linked profile; a borrower without one is refused. |
| `CheckoutService.Service.CreateCheckout` | backend/app/application/checkouts/capabilities.py:71-109 | Opens a checkout exactly for an item that is stored in the workspace, not archived and not out, and a borrower of the workspace: one an owner names, or the caller's own profile; which refusal is given is exact, and every one changes nothing. |
| `CheckoutService.Service.ReturnCheckout` | backend/app/application/checkouts/capabilities.py:112-132 | Succeeds exactly once per checkout, for an owner or the linked borrower; the item then has no open checkout. |
| `CheckoutService.Service.UpdateActiveSession` | backend/app/application/checkouts/capabilities.py:198-230 | Succeeds exactly on the caller's own active session at the expected revision with a borrower the caller may choose; then borrower, due date and note are replaced and the revision rises by one; every refusal is told exactly and changes nothing. |
| `CheckoutService.Service.AddSessionItem` | backend/app/application/checkouts/capabilities.py:233-263 | Adds exactly an item that is stored in the session's workspace, not archived and not out; anything else is not found or a conflict; adding an item twice is no change. |
| `CheckoutService.Service.RemoveSessionItem` | backend/app/application/checkouts/capabilities.py:266-281 | Removing an item raises the revision; removing an absent one is no change; refused exactly for a session that is not the caller's own active one. |
| `CheckoutService.Service.AbandonSession` | backend/app/application/checkouts/capabilities.py:284-293 | Ends an active session of the caller, and is refused for any other. |
| `CheckoutService.Service.FindConflicts` | backend/app/application/checkouts/capabilities.py:326-341 | The loop finds exactly the session's items that are missing, foreign, archived or out. |
| `CheckoutService.Service.StoreItem` | backend/app/application/items/capabilities.py:203-331 | An item row is created, changed or archived, as a step of the concurrent machine. |
| `CheckoutService.Service.StoreProfile` | backend/app/api/v1/routes/checkouts.py:91-141 | So is a borrower profile added or edited. |
| `CheckoutService.Service.FinalizeSession` | backend/app/application/checkouts/capabilities.py:296-360 | Succeeds exactly for the caller's active session at the given revision with a permitted borrower, at least one item, and every item stored in the workspace, not archived and not out; opens one checkout per item and is a run of the concurrent machine; any error changes nothing, and a conflict names exactly the items that are missing, foreign, archived or out. |
| `CheckoutService.FinalizeAlone` | backend/app/application/checkouts/capabilities.py:296-360 | The serial finalization is a run of the concurrent machine: with no lock held it can lock its items in ascending order and commit with the same effect. |
| `CheckoutService.RequestAlone` | backend/app/application/checkouts/capabilities.py:185-293 | An update, addition, removal or abandonment that its rows allow can run to its commit in the concurrent machine when nothing else runs, with the serial effect. |
| `IdentifierModel.CreateKeeps` | backend/app/application/identifiers/capabilities.py:67-105 | Creating an identifier keeps at most one pending and one active per target and medium, and a new NFC identifier is pending. |
| `IdentifierModel.ActivateKeeps` | backend/app/application/identifiers/capabilities.py:122-144 | Activation revokes the previous active identifier of the slot and touches no other target. |
| `IdentifierModel.RevokeKeeps` | backend/app/application/identifiers/capabilities.py:158-168 | Revocation touches one identifier. |
| `IdentifierService.Server.CreateIdentifier` | backend/app/application/identifiers/capabilities.py:67-105 | For a target that is stored, not archived and in a workspace the caller is a member of and not bound away from: hands out the pending (or active printed) identifier of the target, or stores a new one, active when printed and pending for a tag; otherwise the target is not found or access is denied, and nothing changes. |
| `IdentifierService.Server.ActivateIdentifier` | backend/app/application/identifiers/capabilities.py:122-144 | Makes a pending identifier active and revokes the active one of the same target and medium, and touches no other; is no change for an active one, and refuses a revoked one or a caller out of reach. |
| `IdentifierService.Server.ActivatePendingNfcIdentifier` | backend/app/application/identifiers/capabilities.py:147-155 | Activates only a pending NFC identifier, by its public id; any other name is not found. |
| `IdentifierService.Server.RevokeIdentifier` | backend/app/application/identifiers/capabilities.py:158-168 | Revokes an identifier in reach and changes nothing else. |
| `IdentifierService.Server.ResolveIdentifier` | backend/app/application/identifiers/capabilities.py:108-119 | Resolves to an identifier exactly when it has this public id and is active, the caller is a member of its workspace and not bound to another, and its target is stored, not archived and in that workspace; access is denied exactly for an active one out of reach. |
| `IdentifierService.AssignNfcTag` | apps/mobile/src/services/nfcAssignment.ts:15-55 | With a fault at any step: rows only move forward and only the target's NFC identifiers and the one the tag named before change; a written tag carries an identifier of the target that is not revoked; on a normal return scanning leads to the target, the tag's previous content leads nowhere as a tag, and the result says exactly whether a working tag of something else was taken over; nothing that failed is reported as success, and a lost first request changes nothing.  Without faults it returns normally exactly when the target is stored, not archived and in reach, a pending identifier left from before is of its workspace and version 1 or the new public id is unused, and an old tag content that names an active identifier out of reach names one of the same target. |
| `IdentifierService.WriteNfcIdentifier` | apps/mobile/src/services/nfc.ts:45-70 | The tag carries the payload unless it was not reached or was left garbled; a normal return gives what it carried before. |
| `IdentifierService.ResolveIdentifier` | apps/mobile/src/services/identifierResolution.ts:8-20 | A recovery tap resolves every NFC identifier that is not revoked and whose target is live and in reach; without recovery, and on a failed first request, nothing changes; a tap that had to recover succeeds only when both later requests got through. |
| `IdentifierRuns.HistoryKeeps` | backend/app/application/identifiers/capabilities.py:67-168 | At every point of every serial history each target and medium has at most one pending and one active identifier. |
| `IdentifierRuns.RevokedIsFinal` | backend/app/application/identifiers/capabilities.py:122-168 | Along every serial history identifiers keep their name, target and medium, and revoked is final. |
| `IdentifierRuns.TagLeadsOnlyToItsTarget` | apps/mobile/src/services/nfcAssignment.ts:15-26 | Whatever happens after a tag was written, scanning it leads to the target it was written for or nowhere. |
| `IdentifierRuns.EventAnswers` | backend/app/application/identifiers/capabilities.py:67-168 | Every request of a history is possible, changes the rows as the server answers it, row by row, and leaves the tag alone; writing leaves the rows alone. |
| `IdentifierRuns.InterleavingKeeps` | backend/app/application/identifiers/capabilities.py:122-144 | With overlapping requests both uniqueness rules still hold. |
| `IdentifierRuns.RevocationHoldsExactly` | backend/app/application/identifiers/capabilities.py:122-168 | With overlapping requests a revoked identifier can come back exactly when an activation that read it earlier has still to commit. |
| `IdentifierRuns.RevokeBetweenReadAndCommit` | backend/app/application/identifiers/capabilities.py:122-168 | A run in which a revocation between the read and the commit of an activation is undone. |
| `IdentifierRuns.ActivateAlone` | backend/app/application/identifiers/capabilities.py:122-144 | An activation that nothing gets between its read and its commit has the effect of the serial one, and one that fails changes nothing. |
| `IdentifierRuns.RevokeAlone` | backend/app/application/identifiers/capabilities.py:158-168 | So has a revocation. |
| `Payload.ParseIsTheMatch` | packages/api-client/src/resources/identifiers.ts:16-22 | Parsing gives a public id and version exactly when the trimmed text is the scheme, digits, a slash and idn_ with letters, digits, _ or -, and the number is safe; they are then the parts of that text. |
| `Payload.SpaceCodes` | packages/api-client/src/resources/identifiers.ts:16-18 | Trimming removes the 25 white space and line end characters of ECMAScript (sections 12.2 and 12.3 of ECMA-262). |
| `Payload.ParseReadsPrint` | backend/app/application/identifiers/capabilities.py:41-42 | Parsing a printed payload, with any white space around it, returns the public id and version. |
| `Payload.PrintRebuildsParse` | packages/api-client/src/resources/identifiers.ts:16-22 | Whatever parses prints back to the trimmed input up to leading zeros of the version. |
| `Payload.PrintIsInjective` | backend/app/application/identifiers/capabilities.py:41-42 | Different identifiers print differently. |
| `LikeSearch.EscapeIsOnePass` | backend/app/application/items/capabilities.py:67-68 | The three replacements, backslash first, put an escape before exactly the special characters. |
| `LikeSearch.ContainsPattern` | backend/app/application/items/capabilities.py:85-98 | The pattern with a percent sign on both sides matches a text exactly when the query is a substring of it, with or without case folding. |
| `LikeSearch.PrefixPattern` | backend/app/application/items/capabilities.py:99-104 | The pattern with a trailing percent sign matches exactly the texts that begin with the query. |
| `BackupArtifact.CreateArtifact` | backend/app/application/backups/artifact.py:36-104 | Builds an artifact exactly when every media key is relative without a segment that goes to the directory above, present, and not in another's way; then it holds the dump, every medium, the manifest and an index of all of them. |
| `BackupRestore.VerifyArtifact` | backend/app/application/backups/artifact.py:107-174 | Accepts exactly the archives whose names are distinct and safe (relative, and no segment goes to the directory above), whose index, manifest and members agree and whose encryption field, if any, is an object; then reports what the manifest says; tells a foreign format from damage, and says exactly when an error escapes the handled ones. |
| `BackupRestore.ExtractVerified` | backend/app/application/backups/artifact.py:177-189 | Unpacks exactly the accepted archives in which no file is a directory of another and whose manifest also reads as text; each path then has the content of the last member stored there, and the manifest returned is the verified one. |
| `BackupRestore.Restore` | backend/app/application/backups/service.py:42-68 | An unconfirmed, rejected or mismatched artifact changes nothing, and neither does one that does not unpack, whose manifest is no text, or whose media unpack to a file.  Every other accepted artifact replaces the database by its dump and puts the media entries in order up to the first that cannot be put: its key is no string, its bytes cannot be read (from the staged media, or for a key that begins with a slash from the restoring machine), its type is missing, or the storage refuses it; what is then stored is stated for a restore that stops part way as well. |
| `BackupRestore.FixedUnpacks` | backend/app/application/backups/artifact.py:177-189 | In an accepted archive nothing but the dump comes to lie at the dump's path, and nothing but the manifest at the manifest's. |
| `RestoreSources.ArchiveDecidesExactly` | backend/app/application/backups/service.py:60-67 | On every restoring machine the media that are put have the bytes that the archive unpacks at their path, exactly when every entry whose key begins with a slash comes after, or is itself, one that stops every restore. |
| `RestoreSources.RelativeKeysExactly` | backend/app/application/backups/service.py:65-67 | When nothing else stops a restore, that is exactly when no key in the manifest begins with a slash. |
| `RestoreSources.RelativeKeysFromArchive` | backend/app/application/backups/service.py:65-67 | When no key begins with a slash, a restore leaves under the key of every entry it put the bytes that the archive unpacks there, on whichever machine and wherever it stops. |
| `RestoreSources.HostFileIsPut` | backend/app/application/backups/service.py:66-67 | An artifact with one medium under a key that begins with a slash is accepted; what is stored is the machine's file of that name, and without it the restore fails when the database has been replaced. |
| `RestoreSources.HostnameIsPut` | backend/app/application/backups/service.py:66-67 | The artifact with the member media//etc/hostname and the key /etc/hostname restores the machine's /etc/hostname. |
| `RestoreSources.DotIsNoDirectory` | backend/app/application/backups/service.py:61-63 | The artifact with the member media/. and the key . is accepted and unpacks, and its restore fails before anything is written. |
| `RestoreSources.NumberStops` | backend/app/application/backups/service.py:65-67 | The artifact whose one key is the number 5 is accepted, and its restore replaces the database, puts nothing and fails. |
| `RestoreSources.EncryptionDecides` | backend/app/application/backups/artifact.py:157-171 | An artifact that agrees in everything else verifies exactly when its encryption field is absent or an object; otherwise an error escapes. |
| `BackupRestore.TidyFiles` | backend/app/application/backups/artifact.py:177-189 | With canonical names that do not nest an archive unpacks to exactly its members. |
| `BackupModel.SameIndexSameMembers` | backend/app/application/backups/artifact.py:136-157 | Two accepted artifacts with the same checksum index have identical members. |
| `BackupModel.IndexCoversMembers` | backend/app/application/backups/artifact.py:152-157 | Every member of an accepted artifact but the index is in the index with its digest. |
| `BackupRestore.BuiltIsAccepted` | backend/app/application/backups/artifact.py:79-89 | A built artifact verifies exactly when every media key is in canonical form and every workspace has a type. |
| `BackupRestore.BuiltReports` | backend/app/application/backups/artifact.py:72-100 | Verifying what the builder made reports the id, date, schema revision, media count and workspaces that went in, and no encryption, from the files and the format that other versions look for. |
| `BackupRestore.DoubledSlashIsRefused` | backend/app/application/backups/artifact.py:66-89 | A key with a doubled slash, such as a//b, can be stored and backed up, and its backup is never accepted. |
| `BackupRestore.BackupRestores` | backend/app/application/backups/service.py:60-67 | A backup of canonical keys that do not nest is accepted and staged on every machine, and its entries can all be put exactly when the storage takes every key; then the same database bytes and the same media under those keys are restored. |
| `BackupRestore.RestoreUndoesBackup` | backend/app/application/backups/service.py:42-68 | Whatever a restore of such a backup leaves, on whichever machine, the database is the dumped one; it runs to its end exactly when the storage takes every key, and then every medium is as it was stored and the target's other media are unchanged. |
| `BackupRestore.ClashIsNesting` | backend/app/application/backups/artifact.py:66-69 | Canonical keys clash on disk exactly when one is a directory of the other. |
| `Paths.CanonicalIsNormal` | backend/app/application/backups/artifact.py:31-33 | The canonical paths are exactly those that pathlib leaves as they are. |
| `Paths.MediaPathIsName` | backend/app/application/backups/artifact.py:80-84 | A medium lies under its declared name exactly for a canonical key. |
| `Paths.SafeMeansInside` | backend/app/application/backups/artifact.py:31-33 | The safety check of names, on the parts of the path, refuses exactly the empty names, the absolute ones, and those with two dots between slashes or ends. |
| `BorrowerDesk.Service.AddBorrower` | backend/app/api/v1/routes/checkouts.py:91-105 | Stores an unlinked profile with this name and email and changes nothing else. |
| `BorrowerDesk.Service.EditBorrower` | backend/app/api/v1/routes/checkouts.py:108-141 | Refused exactly for an unknown profile, or for a new email when the profile is linked or an invitation of it is neither used nor withdrawn nor expired; otherwise name and email are replaced, and nothing else changes. |
| `BorrowerDesk.Service.InviteBorrower` | backend/app/api/v1/routes/checkouts.py:148-179 | Refused exactly for an unknown profile, a linked one, or one without email; otherwise every open invitation of the profile is withdrawn and one with its current email is stored, valid for 24 hours. |
| `BorrowerDesk.Service.RevokeInvitation` | backend/app/api/v1/routes/checkouts.py:217-226 | Marks an invitation of the workspace as withdrawn; any other is not found. |
| `BorrowerDesk.Service.ClaimInvitation` | backend/app/api/v1/routes/checkouts.py:262-319 | Invalid exactly without a live invitation of this token; then a linked profile is a conflict, an invited account without a password that fits is refused, a new account without a name is refused, and a user already linked in the workspace is a duplicate; otherwise exactly the profile's link, the invitation's use, the account and the membership are written.  Every refusal changes nothing. |
| `BorrowerDesk.Service.Register` | backend/app/api/v1/auth.py:73-86 | A new account is stored exactly when no other has its address. |
| `BorrowerDesk.InvitationsAndLinksAgree` | backend/app/api/v1/routes/checkouts.py:108-319 | At every moment of every history with a clock that does not run backwards: one open invitation per profile at most, claimable ones with the profile's current email, linked profiles with their user's email. |
| `BorrowerDesk.LinksAreForGood` | backend/app/api/v1/routes/checkouts.py:122-126 | A linked profile stays linked to the same user with the same email. |
| `BorrowerDesk.EditSlipsIntoClaimAfterExpiry` | backend/app/api/v1/routes/checkouts.py:262-306 | A claim does not lock the profile: while it runs, an edit to another email gets through exactly once the invitation has expired, and the link then breaks the email rule. |
| `BorrowerRaces.StepKeepsInv` | backend/app/api/v1/routes/checkouts.py:108-319 | With overlapping edits, invitations, claims and withdrawals every step keeps the row locks exact, what requests have read under them current, and every rule of the tables and of invitations. |
| `BorrowerRaces.RunKeepsInv` | backend/app/api/v1/routes/checkouts.py:108-319 | That holds in every state of every run, so overlap breaks nothing but the email of a link. |
| `BorrowerRaces.DeadlockExactly` | backend/app/api/v1/routes/checkouts.py:153-306 | In every reachable state some requests wait on each other exactly when a claim holds the open invitation of a profile and goes on to the profile while an invitation holds the profile and goes on to close that one. |
| `BorrowerRaces.EveryClaimCanDeadlock` | backend/app/api/v1/routes/checkouts.py:153-306 | From every reachable state in which an invitation can be claimed and neither row is locked, a run leads to that deadlock. |
| `BorrowerRaces.LinkEmailExactly` | backend/app/api/v1/routes/checkouts.py:108-306 | A claim that commits leaves a link with its user's email exactly unless the last edit of the profile committed since the invitation could be claimed was to another email; and such an edit commits only once the invitation has expired. |
| `BorrowerRaces.EveryClaimCanSlip` | backend/app/api/v1/routes/checkouts.py:108-306 | From every such state a run also leads to a link whose email is not its user's. |
| `BorrowerRaces.BothAreReached` | backend/app/api/v1/routes/checkouts.py:108-306 | From empty tables a run reaches a deadlock, and another a link with the wrong email. |
| `BorrowerCommits.CommitWasAllowed` | backend/app/api/v1/routes/checkouts.py:108-306 | In every run a committed request was let in on the row it locked first, of its workspace and in the right state, or with the token of a live invitation; an edit or claim then read that no live invitation stands against its email, or an unlinked profile and the invited account with a password that fits, or no such account and a name; and it wrote exactly its own change. |
| `BorrowerCommits.SerialRuns` | backend/app/api/v1/routes/checkouts.py:108-306 | Every request that the serial desk grants can run to its commit with the serial effect, from every reachable state in which no row is locked. |
| `RealtimeHub.Hub.Connect` | backend/app/services/realtime.py:20-37 | Adds the socket to every dictionary that applies. |
| `RealtimeHub.Hub.Disconnect` | backend/app/services/realtime.py:39-55 | Removes the socket from every dictionary and drops sets that become empty; an unknown workspace changes nothing. |
| `RealtimeHub.Hub.Publish` | backend/app/services/realtime.py:77-109 | Delivers to exactly the workspace's sockets that can be written to and disconnects exactly the others. |
| `RealtimeHub.Hub.PublishCheckoutSession` | backend/app/services/realtime.py:111-135 | Delivers to exactly the workspace's sockets of the actor or of owners, and disconnects exactly those that fail. |
| `RealtimeHub.Hub.RevokeDevice` | backend/app/services/realtime.py:57-75 | Reaches exactly the sockets of the device. |
| `RealtimeHub.DeviceIndexesAreInverse` | backend/app/services/realtime.py:12-18 | The device index and the socket index are inverse and no set is kept empty. |
| `RealtimeHub.StrangersAreNowhere` | backend/app/services/realtime.py:39-55 | A socket that is not connected is in none of the five dictionaries. |
| `CacheRefresh.LocalStore.SyncInventoryOnce` | apps/mobile/src/services/inventory.ts:35-95 | After a refresh the workspace's cached entries are exactly those the server listed plus the cached items and placements of queued operations, contents included, and so is the returned inventory; other workspaces are untouched; a repeated id rolls everything back. |
| `CacheRefresh.LocalStore.Refill` | apps/mobile/src/services/inventory.ts:67-93 | The transaction succeeds exactly when no list repeats an id, and otherwise changes nothing. |
| `CacheRefresh.LocalStore.LoadCachedInventory` | apps/mobile/src/services/inventory.ts:97-117 | Reads back every cached row of the workspace once, by kind. |
| `CacheRefresh.LocalStore.QueueItem` | apps/mobile/src/services/itemQueue.ts:29-33 | The operation is queued, under the workspace of its first call, the item and placement are cached, and every other row and operation is as it was. |
| `CacheRefresh.LocalStore.RemoveSynced` | apps/mobile/src/services/itemQueue.ts:104-108 | The operation and the rows under its id and its placement's id are gone from the workspace, every other row and operation is as it was, and no cached row is optimistic for it any more. |
| `CacheRefresh.LocalStore.ClearInventoryCache` | apps/mobile/src/services/inventory.ts:119-125 | Exactly the rows and the time stamp of the workspace are gone. |
| `InventoryCache.CombinedHas` | apps/mobile/src/services/inventory.ts:47-66 | The returned inventory has exactly the entries the server listed and, as items and placements, the entries cached for queued operations of the workspace, contents included. |
| `InventoryCache.ReadBackGivesInventory` | apps/mobile/src/services/inventory.ts:97-117 | Reading a refreshed cache gives the returned inventory up to order. |
| `CacheRace.SyncInventoryThrough` | apps/mobile/src/services/inventory.ts:47-95 | A refresh with drafts queued and removed between its local read and its transaction leaves the queue as those calls left it, and caches what the server listed and what was optimistic at the read; a repeated id leaves just what those calls did. |
| `CacheRace.CurrentExactly` | apps/mobile/src/services/inventory.ts:47-95 | Such a refresh leaves the cache current (the server's entries and those of the drafts queued at the end) exactly when, for every id the calls name, replaying them on that id's own rows shows what was shown at the read, entries aside that the server lists. |
| `CacheRace.CurrentUnlessDraftsMoved` | apps/mobile/src/services/inventory.ts:47-95 | With drafts that keep their content it is current exactly when the server lists the item and placement of every draft that on balance joined or left the queue in between; calls that cancel do no harm. |
| `CacheRace.QueueThenRemove` | apps/mobile/src/services/itemQueue.ts:29-33 | Queueing a draft that was not there and removing it again leaves no trace. |
| `CacheRace.DraftIsLost` | apps/mobile/src/services/inventory.ts:47-86 | A run in which a draft queued after the read is not in the cache while it is queued. |
| `CacheRace.DraftComesBack` | apps/mobile/src/services/inventory.ts:47-86 | A run in which a draft synced after the read is in the cache again. |
| `ImageCrop.InsideIffCovers` | apps/web/src/components/wherehouse/ImageCropDialog.tsx:52-61 | The crop square lies in the image exactly when the image covers the preview, and no divisor is zero. |
| `ImageCrop.CropDialog.Drag` | apps/web/src/components/wherehouse/ImageCropDialog.tsx:84-90 | Dragging moves by the pointer and is clamped so that no gap opens. |
| `ImageCrop.CropDialog.ChangeZoom` | apps/web/src/components/wherehouse/ImageCropDialog.tsx:47-50 | Zooming clamps the pan to the new zoom. |
| `ImageCrop.CropDialog.OpenFile` | apps/web/src/components/wherehouse/ImageCropDialog.tsx:21-28 | Another file resets pan and zoom, which fits any picture, and keeps the size known from the one before. |
| `ImageCrop.CropDialog.OnLoad` | apps/web/src/components/wherehouse/ImageCropDialog.tsx:95 | The load event makes the size of the picture shown the known one and moves nothing. |
| `ImageCrop.CropDialog.CropImage` | apps/web/src/components/wherehouse/ImageCropDialog.tsx:52-61 | A square is cut once any size is known, and lies inside the picture shown exactly when the pan is within the bounds of that picture. |
| `ImageCrop.SquareAfterLoad` | apps/web/src/components/wherehouse/ImageCropDialog.tsx:21-61 | After any sequence of files, load events, drags and zooms in which the last picture was loaded: a drag or zoom since that load event puts the square inside, and without one it is inside exactly when the pan left before the load event is within the bounds of the new picture. |
| `ImageCrop.PhaseMeans` | apps/web/src/components/wherehouse/ImageCropDialog.tsx:21-50 | The two cases are told apart by the sequence itself: a load event with no file opened after it, and whether a drag or zoom came after such an event. |
| `ImageCrop.LoadedUntouched` | apps/web/src/components/wherehouse/ImageCropDialog.tsx:21-28 | A picture that is opened and loaded with no gesture in between has the square inside, whatever came before. |
| `ImageCrop.GesturesStayInside` | apps/web/src/components/wherehouse/ImageCropDialog.tsx:37-61 | With a single picture, after any drags and zooms before and after its load event, the square is inside. |
| `ImageCrop.DragBeforeLoadLeavesImage` | apps/web/src/components/wherehouse/ImageCropDialog.tsx:21-27 | A wide picture is loaded, a square one opened, dragged before its load event and loaded: the square lies outside. |

## Left out

- Transport, request validation, sessions of the ORM, and the engines of SQLite and
  PostgreSQL: only rows, constraints, locks and commit points are modelled.
- Implicit locks of foreign keys, and waiting on an unfinished insert into a unique
  index: a commit is refused when the index is already violated.
- Overlapping location requests other than the two placements above: location and
  item requests are otherwise serial.
- IdentifierService.AssignNfcTag: no other client changes identifiers during the
  assignment; overlapping requests are treated in IdentifierRuns.
- QueueSync.SyncPendingItemsOnce: no other call, callback or revocation comes in
  between; the state machine has all of them.
- CacheRace.CurrentUnlessDraftsMoved: a draft id does not begin with the prefix of
  placement ids and a draft keeps its content; CurrentExactly has neither condition.
- The map of running refreshes: a second refresh of a workspace joins the first.
- QueueTheorems.UnchangedRowNeverConflicts: other clients that use the row's
  operation id for something else are excluded, because then the conflict is the
  intended answer.
- BackupRestore.Restore: the files of the restoring machine do not change while it
  runs, and the database's own restore does not fail; the storage is a map that
  refuses keys as a parameter says.
- BorrowerRaces.LinkEmailExactly: an account or membership that a claim has inserted
  but not committed is not waited for; the claim is refused at its commit instead.
- Membership look-ups of the checkout requests: the caller's role is a parameter.
- The order in which queue rows are listed, and the order of archive members: any
  order is allowed.
- Fields of drafts, items and entities that no decision reads are one opaque text;
  building the optimistic entities is not modelled.
- Deletion follows the ON DELETE rules of the schema; what the ORM does to children
  it has loaded is not modelled.  Relationship type, position and name uniqueness of
  locations are left out.
- Quantities are integers in thousandths; rounding of floating-point sums is left out.
- Normalisation and case folding of search queries and emails, ranking and limits of
  search results.
- Zip and JSON encodings, temporary directories and the replacement of the artifact
  file; providers and pruning of backups.
- Token generation, password hashing, pairing, OAuth and the appliance.
- Photo upload is one step that may fail; deletion of the photo file likewise.
- Screens, styling and navigation other than the crop arithmetic; floating-point
  rounding in it.
