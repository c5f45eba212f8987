# The homey inventory, modelled and proved

This project models the logic of homey, an inventory of what is kept where in a home,
and proves what its code is relied on for. Rooms hold containers, containers hold
containers, and items lie in either. The model follows the Go and TypeScript code branch
by branch; where the code changes state the model is a class or a loop, and each such
method is proved against a function whose properties are then proved as lemmas.

- **The store** (`StoreModel`, `Store`, `StoreInvariant`, `StoreTree`, `StoreOutcomes`,
  `StoreReplay`, `StoreExamples`). Three tables and an event log. Every mutation is a
  transaction that checks, writes and appends one event, or rolls back; exactly when each
  succeeds and what it then leaves is proved. All runs keep a forest of containers inside
  rooms; a move rewrites paths exactly and is undone by its own event; the log replays to
  the tables. The recursive statements use UNION ALL, so they end only because of the
  invariant they help keep: they are loops that require it.
- **Backup** (`BackupDocument`, `BackupOrder`, `BackupExport`, `BackupNames`,
  `BackupImport`, `BackupSteps`, `BackupOverlay`, `BackupCheck`, `BackupCycles`,
  `BackupStored`, `BackupWorld`, `BackupApply`, `BackupRun`, `BackupOutcome`,
  `BackupReport`, `BackupRoundTrip`, `BackupPromises`, `BackupFailures`). Export turns the
  graph of ids into a document of names, import lays a document over any store.
  `BackupNames.View` is what a store says with no id in sight, and import is proved to
  override it, name by name, and to report what it did entry by entry. An entry is looked
  up as the document writes it and stored in a form of the store's own
  (`BackupStored.StoreKey`); where the two differ, entries can collide. `BackupPromises`
  states the results about the run itself, for every document that is accepted.
- **The location index** (`Paths`, `LocationIndex`, `LocationListings`, `LocationAgrees`,
  `LocationCount`, `LocationResolve`, `LocationNames`, `WebPaths`). Paths, ancestors,
  children, names and counts: what they are on any listing, broken ones included, and that
  they agree with the store on sound ones.
- **Search** (`Like`, `Search`, `SearchEngine`, `Highlight`). Escaped LIKE, ranking,
  and marking the matches in a text.
- **Two protocols with time** (`Confirm`, `Deletion`, `Limiter`). Single-use tokens and
  the fixed-window limiter.
- `Text`, `Sequences`, `Sorting`, `Forest` and `Inventory` are the ground they stand on.

Uniqueness folds ASCII letters, as the database does, and is concrete. Folding for search
and for path keys, which also strips accents, is a parameter `fold`; each result says what
it needs of it. Time, random tokens and the caller's policy are parameters. Times are
whole nanoseconds, and so is the conversion to seconds.

## Where the code and its documentation differ

The code is modelled as it is. Five promises hold under a condition, which is proved:

- `internal/backup/import.go:17-19` and `:37-39` promise that a second import reports
  everything unchanged. After a first import that went through, this holds exactly for
  canonical documents (`BackupCheck.Canonical`, `BackupPromises.SecondImport`): container
  names are trimmed and items in rooms name no container, for the second import fails with
  ErrConflict otherwise; and tags and aliases are listed in stored order, for they are
  compared position by position.
- `internal/backup/import.go:87-89` accepts or refuses a document as a whole before
  anything is written. An accepted document can still stop half-way. It goes through
  exactly when no entry is hindered (`BackupOutcome.Hindrance`,
  `BackupPromises.ImportFailsExactly`): with ErrConflict by an entry that is not found under
  the name the document gives it while the name it is stored under is in the store or is
  that of an earlier entry; with ErrCycle by one after which names hang in a circle, which
  takes a parent the document does not declare. `BackupFailures` gives a family of documents
  for each.
- Resolving a rendered path gives its place back exactly when no two places share a path key
  (`LocationResolve.ResolveInvertsPath`). Where no stored name contains ">", as it is or
  folded, that is when names in one scope stay different after folding
  (`LocationResolve.PlainKeysApart`): the database keeps "Caffè" and "Caffe" apart, folding
  does not. Names may contain ">", and then a room "A > B" and a container "B" in a room "A"
  share a key (`LocationResolve.SeparatorsClash`); and folding makes ">" of "≯", so a room
  "A≯B" does the same (`LocationResolve.FoldedSeparatorsClash`).
- A key of the limiter passes at most limit times per whole window begun, whatever it does,
  exactly in the stretches of time whose budget keeps to that (`Limiter.PlainBoundExact`):
  what the running window has left and limit for every window that can still begin, a number
  that is always reached (`Limiter.BudgetReached`). It is kept from a moment without a
  running window (`Limiter.FreshBound`), and not always from inside one
  (`Limiter.RunningWindowAdds`).
- At the instant a full window ends the limiter announces no wait and still refuses
  (`Limiter.NoWaitYetRefused`).

## Model

| member | source | states |
|---|---|---|
| Text.TrimIdentity | internal/inventory/validation.go:30-56 | Trimming changes exactly the texts that have white space at an end |
| Text.TrimTwice | internal/inventory/validation.go:30-56 | Normalising twice is normalising once |
| Text.TrimCuts | internal/inventory/validation.go:30-56 | Trimming cuts white space off the two ends, and nothing else |
| Text.ScopeKeysMeet | internal/backup/document.go:221-232 | Two names count as one exactly when they agree letter by letter ignoring ASCII case |
| Inventory.RoomRests | internal/inventory/validation.go:32-35 | A normalised valid room is stored in a form that writing it again would not change |
| Inventory.ContainerRests | internal/inventory/validation.go:39-42 | The same for a container |
| Inventory.ItemRests | internal/inventory/validation.go:46-56 | The same for an item, whose labels come back in stored order |
| Inventory.StoredLabelsTwice | internal/storage/items.go:79-83 | Reading labels back in order and storing them again keeps their order |
| Inventory.StoredLabelsInOrder | internal/storage/items.go:79-83 | Labels come back ordered ignoring ASCII case, then by their exact text |
| Forest.AttachAcyclicIff | internal/storage/containers.go:96-105 | Hanging a node under a parent keeps a forest exactly when the upward walk from the parent does not meet the node |
| Forest.WalkUpIsChain | internal/storage/containers.go:65-77 | On a forest a guarded walk is the unguarded one: the guard never fires |
| Forest.WalkUpFresh | internal/inventory/locations.go:218-238 | On any parent relation the guarded walk meets no node twice |
| Forest.AcyclicIffLoopFree | internal/backup/document.go:276-299 | Scanning from every node decides whether the relation is a forest |
| Forest.AcyclicIffNoCycle | internal/backup/document.go:261-263 | A rank along the links exists exactly when no node is its own proper ancestor |
| StoreInvariant.CycleGuardExact | internal/storage/containers.go:47-63 | The guard of a re-parenting fires exactly when the new parent relation would be cyclic |
| StoreInvariant.CreateRoomSound | internal/storage/rooms.go:52-66 | Creating a room keeps every invariant of the store |
| StoreInvariant.UpdateRoomSound | internal/storage/rooms.go:92-110 | Updating a room keeps every invariant |
| StoreInvariant.DeleteRoomSound | internal/storage/rooms.go:113-136 | Deleting an empty room leaves nothing dangling |
| StoreInvariant.CreateContainerSound | internal/storage/containers.go:117-142 | Creating a container keeps parents existing, in one room and acyclic, and names unique |
| StoreInvariant.UpdateContainerSound | internal/storage/containers.go:201-244 | Re-parenting and renaming keep the forest inside its rooms |
| StoreInvariant.MoveContainerSound | internal/storage/containers.go:247-315 | Moving a subtree keeps it in one room, acyclic and without name collisions |
| StoreInvariant.DeleteContainerSound | internal/storage/containers.go:318-343 | Deleting an empty container leaves nothing dangling |
| StoreInvariant.CreateItemSound | internal/storage/items.go:167-200 | Creating an item keeps its place existing and its name unique there |
| StoreInvariant.UpdateItemSound | internal/storage/items.go:254-291 | Updating an item keeps the same |
| StoreInvariant.MoveItemSound | internal/storage/items.go:294-327 | Moving an item keeps the same |
| StoreInvariant.RefusalChangesNothing | internal/storage/repos.go:48-61 | A refused call leaves every table and the log as they were |
| StoreInvariant.StepSound | internal/storage/repos.go:45-61 | Every mutation, whatever its arguments, keeps the invariant |
| StoreInvariant.RunSound | internal/storage/repos.go:45-61 | Every sequence of mutations keeps the invariant |
| StoreInvariant.ReachableSound | migrations/000003_unique_names.up.sql:9-15 | Every reachable state has existing parents in the child's room, no cycle, no dangling reference and no two names in one scope that differ in ASCII case only |
| StoreOutcomes.CreateRoomExact | internal/storage/rooms.go:52-66 | A room is created exactly when it is valid and no room has its name ignoring ASCII case; the row, the next id and the event it leaves, or the error |
| StoreOutcomes.UpdateRoomExact | internal/storage/rooms.go:92-110 | The same for an update of an existing room |
| StoreOutcomes.DeleteRoomExact | internal/storage/rooms.go:113-136 | A room goes exactly when it is there and no container and no item is placed in it; the event carries its row |
| StoreOutcomes.CreateContainerExact | internal/storage/containers.go:117-142 | A container is created exactly when it is valid, its room is there, its parent is there and in that room, and its name is free in the room; otherwise the error, in the order of the checks |
| StoreOutcomes.UpdateContainerExact | internal/storage/containers.go:201-244 | An update succeeds exactly when, besides, the container stays in its room and the new tree is a forest |
| StoreOutcomes.MoveContainerExact | internal/storage/containers.go:247-315 | A move succeeds exactly when the destination is there, the new tree is a forest, and no container that moves along has the name of one in the destination's room that does not; the new row of every container, and the event |
| StoreOutcomes.DeleteContainerExact | internal/storage/containers.go:318-343 | A container goes exactly when it is there and nothing hangs from it or lies in it |
| StoreOutcomes.CreateItemExact | internal/storage/items.go:167-200 | An item is created exactly when it is valid, its place is there, and its name is free in that place |
| StoreOutcomes.UpdateItemExact | internal/storage/items.go:254-291 | The same for an update of an existing item |
| StoreOutcomes.MoveItemExact | internal/storage/items.go:294-327 | A move succeeds exactly when the destination is there and valid, the item is there, and its name is free at the destination; then it is there, nothing else changed, and the event carries both places |
| StoreOutcomes.MoveItemUndone | internal/storage/items.go:311-325 | Moving an item back to the origin its event recorded is legal right after the move, and restores the items |
| StoreOutcomes.DeleteItemExact | internal/storage/items.go:343-367 | An item goes exactly when it is there; the event carries its whole row |
| StoreOutcomes.DeletionsUndone | internal/storage/events.go:37-60 | Putting back the row the event of a deletion carries restores the table |
| StoreOutcomes.ItemValidExactly | internal/inventory/validation.go:89-104 | What a valid item is, limit by limit |
| StoreOutcomes.ReachableWithinLimits | internal/inventory/validation.go:58-104 | Whatever calls were made, every stored row is within the limits of validation |
| Store.AncestorWalk | internal/storage/containers.go:96-105 | The unguarded walk ends, yields each container at most once, and is the chain of the start |
| Store.SubtreeWalk | internal/storage/containers.go:81-88 | The unguarded downward walk ends, yields each container at most once, and reaches exactly those whose upward walk meets the root |
| Store.ChainRows | internal/storage/containers.go:65-77 | The rows from the top of a tree down to a container |
| Store.QueueStep | internal/storage/containers.go:82-88 | One round of the recursive statement keeps what has been found part of the subtree, without duplicates |
| Store.UpdateRowsIsMove | internal/storage/containers.go:89-93 | The one UPDATE over the subtree gives every row below the moved one its room and only the moved one its parent |
| Store.Repos.CreateRoom | internal/storage/rooms.go:52-66 | The transaction leaves the specified state and answer, or rolls back |
| Store.Repos.UpdateRoom | internal/storage/rooms.go:92-110 | The same for an update |
| Store.Repos.DeleteRoom | internal/storage/rooms.go:113-136 | The same for a deletion, refused while the room holds anything |
| Store.Repos.CreateContainer | internal/storage/containers.go:117-142 | The same, with room and parent checked first |
| Store.Repos.UpdateContainer | internal/storage/containers.go:201-244 | The same, with the recursive guard in the statement |
| Store.Repos.MoveContainer | internal/storage/containers.go:247-315 | The same, with the guard walk, the subtree walk and the event's origin read before the move |
| Store.Repos.DeleteContainer | internal/storage/containers.go:318-343 | The same, refused while the container holds anything |
| Store.Repos.CreateItem | internal/storage/items.go:167-200 | The same, with labels stored in order |
| Store.Repos.UpdateItem | internal/storage/items.go:254-291 | The same for an update |
| Store.Repos.MoveItem | internal/storage/items.go:294-340 | The same for a move, recording where the item was |
| Store.Repos.DeleteItem | internal/storage/items.go:343-367 | The same for a deletion, whose event carries the whole item |
| Store.Repos.Path | internal/storage/containers.go:171-198 | The chain from the top container down, with the room they all lie in; NotFound exactly for an unknown container |
| StoreTree.MoveRewritesPaths | internal/storage/containers.go:81-94 | After a move, a container of the subtree has the destination's path followed by its old path from the moved one on; every other path, every room and every item is as before |
| StoreTree.MoveUndoneByEvent | internal/storage/containers.go:247-315 | Moving back to the origin the event recorded is legal right after the move and restores every container |
| StoreTree.MoveCycleExact | internal/storage/containers.go:284-297 | A move answers ErrCycle exactly when the new tree would be cyclic |
| StoreTree.UpdateCycleExact | internal/storage/containers.go:225-241 | An update answers ErrCycle exactly when the new tree would be cyclic |
| StoreReplay.ReplayMoveIsMove | internal/storage/events.go:97-105 | The two places of a move event are enough to give the whole subtree its room again |
| StoreReplay.StepRecorded | internal/storage/events.go:37-60 | Every successful mutation appends one event, and applying that event to the old tables gives the new ones |
| StoreReplay.ReplayRebuilds | internal/storage/events.go:37-114 | In every reachable state, replaying the log from nothing rebuilds rooms, containers, items, labels and places |
| BackupDocument.IndexPositions | internal/backup/document.go:265-274 | The first pass finds a duplicate exactly when two entries share a key |
| BackupDocument.ScanDepth | internal/backup/document.go:279-299 | The ancestor scan ends, finds a circle exactly when there is one above the entry, and otherwise counts the ancestors |
| BackupDocument.OrderContainers | internal/backup/document.go:264-328 | The loops compute the specified order or refusal |
| BackupOrder.OrderedFailsIff | internal/backup/document.go:264-299 | Ordering fails exactly when two entries share a key or the parent links contain a cycle |
| BackupOrder.OrderedPermutes | internal/backup/document.go:301-327 | The result is a permutation of the entries |
| BackupOrder.OrderedParentsFirst | internal/backup/document.go:276-278 | Every parent that is an entry comes before its children |
| BackupOrder.OrderedForgetsOrder | internal/backup/document.go:309-321 | The result does not depend on the order of the entries |
| BackupOrder.OrderedGroups | internal/backup/document.go:309-321 | Rooms stand together by folded name, in a room those with fewer ancestors first, then by folded name |
| BackupNames.KeysApart | internal/backup/import.go:33-37 | In a sound store the names of an entry find one row |
| BackupNames.WorldAfterWrite | internal/backup/import.go:74-77 | Replacing the entry of a written row keeps an index of names in step with the store |
| BackupExport.ExportOrders | internal/backup/document.go:154-157 | The containers of a sound store can always be ordered |
| BackupExport.Export | internal/backup/document.go:103-199 | Export of a sound store succeeds with the document of its listings |
| BackupExport.ExportByName | internal/backup/document.go:98-102 | Rooms are listed by folded name, items by folded name and then by place, in the format an import accepts |
| BackupSteps.ContainerStepPuts | internal/backup/import.go:347-386 | A container entry whose names are known and that closes no circle succeeds and puts its facts under its name |
| BackupSteps.CircularFails | internal/backup/import.go:378-382 | One that would hang a container below itself changes nothing and fails with ErrCycle |
| BackupSteps.ItemStepPuts | internal/backup/import.go:391-431 | An item entry succeeds and puts its facts under its name, rewriting what is there exactly when it says something else or lists labels out of order |
| BackupImport.RoomStepPuts | internal/backup/import.go:311-333 | A room entry succeeds and puts its facts under its name |
| BackupImport.EntryStepSound | internal/backup/import.go:296-308 | Whatever an entry says, applying it leaves the store sound |
| BackupOverlay.NotCircular | internal/backup/import.go:337-388 | A container whose parent is a finished entry never closes a circle: the whole chain of that parent consists of finished entries |
| BackupCycles.ImportOverlays | internal/backup/import.go:294-308 | A script whose names are there in time, closed or not, lays what it says over what was there as far as it goes, leaves unmentioned rows alone, and goes through exactly when its names never hang in a circle |
| BackupCycles.SecondImportExact | internal/backup/import.go:33-39 | Whenever it went through, run again it changes no meaning, and is quiet exactly when all labels are listed in stored order |
| BackupCycles.ClosedNeverCircular | internal/backup/import.go:337-388 | A script that declares every parent it names closes no circle, whatever the store holds |
| BackupOverlay.EventsCounted | internal/backup/import.go:37-39 | An import leaves one event for each entry it created or updated, even when it fails half-way |
| BackupCheck.AcceptedCheckable | internal/backup/import.go:87-144 | Every entry of an accepted document is valid and names what is there by the time it is applied |
| BackupCheck.AcceptsExactly | internal/backup/import.go:87-144 | A document is accepted exactly when its containers can be ordered and every entry is valid, has a name of its own, and finds what it names when its turn comes |
| BackupCheck.AcceptedRunnable | internal/backup/import.go:87-144 | With canonical names it is a script the store can run |
| BackupCycles.ImportExact | internal/backup/import.go:337-388 | By names, an accepted canonical document goes through exactly when its names hang together without a circle after each entry, and fails with ErrCycle otherwise |
| BackupStored.KnownRests | internal/backup/import.go:99-127 | Every name a sound store is indexed under is in the form it stores names in |
| BackupStored.StoredRunnable | internal/backup/import.go:294-433 | As far as no entry collides, an accepted document, canonical or not, is a script the store can run once its names are put in the form of the store |
| BackupStored.CanonicalRests | internal/backup/import.go:348-413 | The canonical documents are exactly those each of whose entries is looked up under the name it is stored under |
| BackupFailures.InversionFails | internal/backup/import.go:87-90 | Turning a stored nesting upside down without declaring both containers is accepted, and the import then fails with ErrCycle |
| StoreExamples.NestedStore | internal/backup/import.go:87-90 | A run after which such a document exists |
| BackupFailures.UntrimmedStepExact | internal/backup/import.go:348-382 | A container entry with an untrimmed name fails with ErrConflict exactly when the room holds a container of the trimmed name, and creates it otherwise |
| BackupFailures.OneContainerAccepted | internal/backup/import.go:195-237 | A document of one container is accepted exactly when it is valid and the room and the parent it names are in the store, whatever white space is around its name |
| BackupFailures.UntrimmedImportExact | internal/backup/import.go:195-220 | An import of an accepted document of one container with an untrimmed name fails with ErrConflict exactly when the room holds a container of the trimmed name, and goes through otherwise |
| BackupFailures.UntrimmedAccepted | internal/backup/import.go:195-220 | A reachable store that accepts one such document of each outcome |
| BackupFailures.TwinsFail | internal/backup/import.go:195-220 | A document that gives one container under an untrimmed and under its trimmed name is accepted by every store that has the room, and fails with ErrConflict in every one |
| BackupFailures.CrowdedStepExact | internal/backup/import.go:407-430 | An item entry that gives a room and a container name fails with ErrConflict exactly when the room holds an item of that name, and creates it otherwise |
| BackupFailures.DisorderlyImport | internal/backup/import.go:17-19 | A document of one item whose labels are out of stored order is accepted and goes through, and importing it again succeeds and writes again |
| BackupFailures.BackwardsItem | internal/storage/items.go:79-83 | A reachable store and an item of that kind, with the tags "b" and "a" |
| BackupApply.ContainerAgrees | internal/backup/import.go:337-388 | Looking a container entry up in maps that follow the store fails on unknown names, fails with ErrConflict where its place is taken by something the maps do not find, and is otherwise the step of the stored form of the entry, after which the maps follow again |
| BackupApply.ItemAgrees | internal/backup/import.go:390-456 | The same for an item entry and its place |
| BackupApply.RoomAgrees | internal/backup/import.go:310-335 | The same for a room entry |
| BackupApply.ApplyByNames | internal/backup/import.go:74-77 | A whole script applied through the maps is its stored form applied by names, up to the first entry that collides; there it stops with ErrConflict |
| BackupApply.ReportCountsEntries | internal/backup/import.go:17-31 | Created, updated and unchanged add up to the entries of each kind that were applied |
| BackupReport.ReportIsExact | internal/backup/import.go:322-424 | Kind by kind, created counts the applied entries whose name was new, unchanged those that say what the inventory said, labels in order, and updated the others |
| BackupReport.WholeReport | internal/backup/import.go:17-31 | A whole import reports every entry of each kind as created, or every one as unchanged, exactly when every one was |
| BackupApply.ReportInParts | internal/backup/import.go:296-308 | The report of a stopped import counts what was done before it stopped |
| BackupRun.LoadRooms | internal/backup/import.go:99-104 | The listed rooms become an index of the rooms of the store |
| BackupRun.LoadContainers | internal/backup/import.go:106-119 | The same for containers |
| BackupRun.KeyOfLocation | internal/backup/import.go:149-168 | An item is keyed by the names of its place, and only a dangling place is an error |
| BackupRun.LoadItems | internal/backup/import.go:121-127 | The same for items |
| BackupRun.NameWorld.CheckRooms | internal/backup/import.go:171-190 | Rooms are accepted exactly when each is valid and no two share a folded name; their names become known |
| BackupRun.NameWorld.CheckContainers | internal/backup/import.go:195-237 | Containers are accepted exactly when keys are distinct, rooms known, fields valid and parents known and different |
| BackupRun.NameWorld.CheckItems | internal/backup/import.go:240-280 | Items are accepted exactly when valid, their places known and their keys distinct |
| BackupRun.NameWorld.Check | internal/backup/import.go:129-143 | The whole check, the order of the containers included |
| BackupRun.CheckedIsAccepts | internal/backup/import.go:87-89 | Checking against the maps is checking against the store |
| BackupRun.NameWorld.ApplyRoom | internal/backup/import.go:310-335 | One room entry: store, maps and fate |
| BackupRun.NameWorld.ApplyContainer | internal/backup/import.go:347-386 | One container entry: store, maps and fate |
| BackupRun.NameWorld.ApplyItem | internal/backup/import.go:391-431 | One item entry: store, maps and fate |
| BackupRun.NameWorld.Apply | internal/backup/import.go:296-433 | The three loops apply the script of the document and report it |
| BackupRun.Import | internal/backup/import.go:44-72 | A refused document writes nothing; any other is applied as its script, with names looked up in an index of the store as it was found |
| BackupOutcome.ImportOutcome | internal/backup/import.go:294-433 | An import of any script that passed the checks goes on up to the first entry that is hindered and answers with what hinders it |
| BackupOutcome.ImportWrites | internal/backup/import.go:37-39 | It leaves one event for each entry created or updated, and writes nothing exactly when it reports nothing but unchanged entries |
| BackupPromises.ImportLaysOver | internal/backup/import.go:33-43 | For every accepted document, also where the import stops: the names applied so far stand for what the document says, all others for what they stood for, unmentioned rows are untouched, and the report counts, kind by kind, which applied names were new, said the same or said something else |
| BackupPromises.ImportFailsExactly | internal/backup/import.go:87-90 | Every accepted document goes through exactly when no entry collides and no circle of names closes; the first entry that does either is where it stops, with ErrConflict or ErrCycle |
| BackupPromises.ImportFailsOnlyOnCircles | internal/backup/import.go:337-388 | On canonical names it never answers ErrConflict, and ErrCycle exactly on circles |
| BackupPromises.ClosedImportOverlays | internal/backup/import.go:33-43 | A document that declares its parents never fails with ErrCycle, over any nesting of the store: it goes through, overlays and is reported in full exactly when no entry collides |
| BackupPromises.SecondImport | internal/backup/import.go:17-19 | Whenever the first import went through, the second is accepted and changes no meaning; it fails exactly when names are not canonical, and reports every entry of each kind as unchanged, none as created or updated, and writes nothing exactly when the document is canonical |
| BackupPromises.StoppedImport | internal/backup/import.go:33-43 | After an import that stopped anywhere on its way, the next run gets exactly as far, answers the same and leaves the same meanings as an unbroken one, when the names applied so far are canonical; when they are not it stops among them and changes no meaning |
| BackupRoundTrip.ExportCanonical | internal/backup/document.go:103-199 | Every export has canonical names and labels in stored order |
| BackupRoundTrip.ExportClosed | internal/backup/document.go:144-151 | Every parent an export names is an entry |
| BackupRoundTrip.ExportSaysView | internal/backup/document.go:98-102 | An export says exactly what the store says at the level of names |
| BackupRoundTrip.ExportsAgree | internal/backup/document.go:100-102 | Two stores that hold the same inventory, whatever the ids, export the same document |
| BackupPromises.ExportImportExport | internal/backup/import.go:33-39 | Importing an export into an empty instance creates every entry and reports each kind as created, restores every meaning, and exports the same document again |
| Paths.PathSplits | internal/inventory/locations.go:249-255 | Splitting a rendered path at the separators and trimming gives its names back |
| Paths.JoinInjective | internal/inventory/locations.go:254-254 | Keys made of pieces without separators are equal only for equal pieces |
| Paths.PathGrows | internal/inventory/locations.go:218-245 | A rendered path is its names with " > " between them |
| Paths.PathKeyParts | internal/inventory/locations.go:247-255 | The key of a path is put together from the keys of its parts; spacing around separators and at the ends never decides |
| LocationIndex.PathOf | internal/inventory/locations.go:218-245 | The walk ends on any input and renders what is still connected |
| LocationIndex.ChainFresh | internal/inventory/locations.go:215-217 | On dangling or cyclic listings the walk meets no container twice |
| LocationIndex.NewLocationIndex | internal/inventory/locations.go:35-72 | The loops build the specified tables, keys and places in indexing order |
| LocationResolve.LastPlaceFound | internal/inventory/locations.go:35-72 | Of several places with one key the one indexed last is found |
| LocationIndex.Ancestors | internal/inventory/locations.go:178-213 | The location, what holds it, and the room of the topmost container |
| LocationIndex.Children | internal/inventory/locations.go:94-128 | The listed rows that sit directly in the place, exactly, in listing order |
| LocationIndex.Resolve | internal/inventory/locations.go:135-171 | The lookup by key, then by bare name, with every error case |
| LocationListings.LastContainerCounts | internal/inventory/locations.go:35-58 | Of several rows listed under one id the last one counts |
| LocationListings.LastRoomCounts | internal/inventory/locations.go:35-58 | The same for rooms |
| LocationListings.ChainExactly | internal/inventory/locations.go:218-238 | On any listing the walk is the only list of different rows that starts at the container, in which each hangs from the next, and that ends where no parent is listed or the parent has been met |
| LocationListings.PathOfListed | internal/inventory/locations.go:218-245 | On any listing a path is the name of the container's own room and the names of the walk from the top down; empty exactly when that room is not listed |
| LocationListings.AncestorsOfListed | internal/inventory/locations.go:178-213 | On any listing the ancestors are the rows of the walk, then the topmost one's room if it is listed |
| LocationListings.ChildOfListed | internal/inventory/locations.go:94-128 | A listed container sits in the container that is its parent, or in its room when its parent is missing or not listed |
| LocationListings.SittingAppend | internal/inventory/locations.go:94-128 | Children come in listing order |
| LocationListings.PlaceOfListed | internal/inventory/locations.go:35-72 | A listed container is a place, under its folded name and path, exactly when its room is listed |
| LocationListings.PlacesAppend | internal/inventory/locations.go:35-72 | Containers become places in listing order |
| LocationListings.CarryingInOrder | internal/inventory/locations.go:150-171 | Candidates of an ambiguous name come in indexing order |
| LocationAgrees.IndexTables | internal/inventory/locations.go:35-58 | The tables of the index are those of the store, in whatever order it lists them |
| LocationAgrees.PathAgrees | internal/inventory/locations.go:74-90 | In a sound store a path renders the chain the store itself walks |
| LocationAgrees.AncestorsAgree | internal/inventory/locations.go:173-213 | Ancestors are that chain from the inside out, then the room |
| LocationCount.AncestorsAreHolders | internal/tools/read.go:229-231 | A place is among the ancestors of a location exactly when the location is reached from it downwards through children |
| LocationCount.StepsAreChildren | internal/inventory/locations.go:94-128 | A step downwards leads to one of the children the index answers, however the containers are listed |
| LocationCount.HeldItems | internal/tools/read.go:249-255 | The loop keeps the items whose ancestors contain the place, in order |
| LocationCount.FilterInOrder | internal/tools/read.go:249-255 | What is kept is kept in order, item by item |
| LocationCount.Candidates | internal/tools/read.go:232-256 | Every item, or those the resolved place holds |
| LocationCount.CountTagged | internal/tools/read.go:220-225 | The loop counts the items that carry the tag |
| LocationCount.CountExact | internal/tools/read.go:206-231 | However the items are listed, the count is that of the stored items reached downwards from the place |
| LocationCount.CountItems | internal/tools/read.go:209-227 | The tool answers that count, or the error of the name |
| LocationCount.RoomCountsAddUp | internal/tools/read.go:229-231 | The counts of all rooms add up to the number of items |
| LocationResolve.ResolveInvertsPath | internal/inventory/locations.go:130-142 | In every inventory, resolving every rendered path gives its place back exactly when no two places share a path key |
| LocationResolve.PlainKeysApart | internal/inventory/locations.go:249-255 | Where no stored name contains a separator, as it is or folded, that is when names in one scope stay different after folding |
| LocationResolve.SeparatorsClash | internal/inventory/locations.go:249-255 | A reachable store, with a room "A > B" beside a container "B" in a room "A", in which scopes are apart and two places share a key under every folding |
| LocationResolve.FoldedSeparatorsClash | internal/inventory/search.go:45-51 | For every folding that gives "a>b", "a" and "b" for the names "A≯B", "A" and "B", as the code's does: a reachable store without separators and with scopes apart, in which the room "A≯B" and the container "B" in a room "A" share a key |
| LocationNames.NameResolves | internal/inventory/locations.go:135-171 | What every text resolves to in every inventory: a place with its key, else nothing if it has a separator, else the only place that carries the name, or all of them by their paths |
| LocationNames.CandidatesResolve | internal/inventory/locations.go:160-171 | Where no two places share a path key, the candidates of an ambiguous name resolve one by one |
| LocationNames.BareNameResolves | internal/inventory/locations.go:150-171 | Where no stored name contains a separator, as it is or folded, a bare name means a room that carries it, else its only container; several containers are all listed, and resolve one by one where scopes are apart; a name that folds to a path means a container with that key or nothing |
| WebPaths.ContainerChain | web/src/lib/paths.ts:38-48 | The chain from the top down, on any list, ending at the first repeated container |
| WebPaths.ContainerPath | web/src/lib/paths.ts:31-36 | The rendered chain, with the room when it is known |
| WebPaths.WebPathAgrees | web/src/lib/paths.ts:8-9 | In a sound store the interface shows the path the server renders |
| WebPaths.SubtreeIds | web/src/lib/paths.ts:50-60 | On any list, cyclic ones included, the worklist ends with the container and all its descendants |
| WebPaths.SubtreesAgree | web/src/lib/paths.ts:15-16 | In a sound store that is the set the server moves |
| Like.LikeIsSubstring | internal/storage/items.go:131-145 | Matching an escaped term between wildcards is containing the term, ignoring ASCII case |
| Like.FoldedLikeIsSubstring | internal/storage/items.go:613-617 | On folded text and terms it is containing the term literally |
| Search.WordsAreWords | internal/inventory/search.go:22-31 | Terms are the words of the folded query, each between white space or the ends, in order, and leave out nothing but white space |
| Search.TermsAreWords | internal/inventory/search.go:22-31 | The terms are exactly the words of the folded query |
| Search.CandidateExact | internal/storage/items.go:137-145 | An item is a candidate exactly when every term occurs in its name, description, an alias or a tag |
| Search.BetterIsRank | internal/search/search.go:135-160 | The comparison agrees with the rank on known fields and kinds, and parts from it in two named cases only |
| Search.RanksInOrder | internal/search/search.go:127-150 | A name beats an alias, an alias a tag, a tag a description; in a field exact beats prefix beats partial |
| Search.ClassifyExactly | internal/search/search.go:178-191 | A value matches exactly when it is the term, as a prefix when it begins with it and goes on, partially when the term occurs and not at the start, and not at all otherwise |
| Search.ClassifiedContains | internal/search/search.go:178-191 | A value is classified exactly when it contains the term |
| Search.BestInField | internal/search/search.go:113-121 | The innermost loop keeps a best match of all values seen |
| Search.Classify | internal/search/search.go:103-125 | The result is a match of minimum rank over all terms, fields and values, and is missing only when nothing matches |
| SearchEngine.CandidateClassified | internal/search/search.go:105-107 | Every candidate of the repository has a match |
| SearchEngine.SearchItems | internal/storage/items.go:241-251 | The repository answers the stored items no term fails on |
| SearchEngine.Find | internal/search/search.go:69-101 | Every candidate with its path and its best match, stably sorted by rank |
| SearchEngine.FoundInOrder | internal/search/search.go:95-99 | The results are a permutation, in order of rank, and keep the repository's order within a rank |
| SearchEngine.FoundExactly | internal/search/search.go:65-68 | Every stored item is found, once and classified, exactly when every word of the folded query occurs in its name, description, an alias or a tag |
| SearchEngine.Page | internal/tools/read.go:109-137 | A page is a prefix of at most the limit, with the full count and whether results are missing |
| Highlight.NextMark | web/src/lib/search.ts:46-55 | The scan over the terms finds the leftmost match, and there the longest |
| Highlight.HighlightSegments | web/src/lib/search.ts:37-67 | For every text, terms and folding the loop ends, the segments concatenate to the text, and the marks follow each other leftmost and longest |
| Highlight.NeedlesAre | web/src/lib/search.ts:37-40 | What is looked for is every term whose folding is not empty |
| Highlight.MarkedExactly | web/src/lib/search.ts:57-66 | Exactly the letters that lie in a match are in a marked segment |
| Highlight.MarksFoldToNeedles | web/src/lib/search.ts:29-36 | Under every folding each mark covers the longest term at the leftmost position any term starts in the folded text; it lies within the text where folding does not lengthen it, and the segment itself folds to the term where folding works slice by slice |
| Confirm.Confirmer.IssueToken | internal/tools/confirm.go:64-77 | Expired tokens go and the new one stands for its tool and entity until it expires |
| Confirm.Confirmer.RedeemToken | internal/tools/confirm.go:83-100 | The answer and the tokens left, in all four cases |
| Confirm.Confirmer.DropExpired | internal/tools/confirm.go:104-111 | Exactly the expired tokens go |
| Confirm.RedeemedExactly | internal/tools/confirm.go:79-82 | Over any run, a token is redeemed exactly when it was issued earlier for this tool and entity, has not expired and has not been redeemed |
| Confirm.RedeemedOnce | internal/tools/confirm.go:21-24 | No token is redeemed twice |
| Confirm.ConfirmationsCovered | internal/tools/confirm.go:21-24 | Confirmations of an action, with those still pending, never exceed its proposals |
| Deletion.AuthoriseDestructive | internal/tools/delete.go:56-84 | The verdict and the tokens left, for every request |
| Deletion.DecisionIsStep | internal/tools/delete.go:50-84 | Every decision is one step of a run of tokens or leaves them alone, and confirms exactly when that step redeems |
| Deletion.DecisionExactly | internal/tools/delete.go:50-84 | After any run of calls, a call may act exactly when its caller may skip the question, when it confirms outright, or when its token answers an open, unexpired proposal for this tool and entity; when it is refused, and what it proposes otherwise |
| Deletion.GoneOnlyIfProposed | internal/tools/delete.go:91-128 | The item, and nothing else, goes exactly when the call may act; without leave that takes an earlier proposal to delete this very item |
| Deletion.DeleteItem | internal/tools/delete.go:91-128 | The item goes exactly when the call may act; otherwise the store is as it was, and a missing item spends no token |
| Limiter.FixedWindow.AllowEvent | internal/server/middleware.go:186-203 | One event: the counters, the wait and the answer |
| Limiter.FixedWindow.SecondsToWait | internal/server/middleware.go:207-216 | The announced wait |
| Limiter.FixedWindow.Cleanup | internal/server/middleware.go:220-229 | Exactly the counters whose window is over go, once the map is large |
| Limiter.SweepInvisible | internal/server/middleware.go:218-229 | Cleaning up, whenever it happens, changes no later answer |
| Limiter.AdmittedInBudget | internal/server/middleware.go:188-203 | A key is never let through more often than what its running window has left and the windows that can still begin |
| Limiter.BudgetReached | internal/server/middleware.go:188-203 | From every state and in every stretch of time there are events that let a key through exactly so often |
| Limiter.PlainBoundExact | internal/server/middleware.go:188-203 | A stretch keeps to limit times the whole windows begun, whatever happens in it, exactly when the budget at its start does |
| Limiter.FreshBound | internal/server/middleware.go:188-203 | From a moment without a running window a key is let through at most limit times the whole windows begun |
| Limiter.AnyBound | internal/server/middleware.go:188-203 | From any other moment at most what the running window has left is added |
| Limiter.RunningWindowAdds | internal/server/middleware.go:193-197 | A run that needs the added term |
| Limiter.WaitingAdmits | internal/server/middleware.go:186-203 | A refused key waits at least a second, and waiting that long without events of its own lets it through |
| Limiter.AnnouncedWaitAdmits | internal/server/middleware.go:205-216 | The same for the wait announced without counting |
| Limiter.WaitIsLeast | internal/server/middleware.go:193-203 | The wait a refusal announces is the least: an event of the key a second or more before it is over is refused again, whatever happens in between |
| Limiter.AnnouncedWaitIsLeast | internal/server/middleware.go:205-216 | The same for the wait announced without counting |
| Limiter.AdmittedAtOnce | internal/server/middleware.go:198-203 | An event that is let through is told to wait for nothing |
| Limiter.NoWaitYetRefused | internal/server/middleware.go:205-216 | No wait is announced and yet the next event refused only at the instant a full window ends |

## Left out

- HTTP, MCP and OpenAPI plumbing, authentication, configuration, logging, migrations and the Svelte pages: transport and wiring.
- SQLite itself: transactions are atomic serial steps, and UNIQUE is checked on the whole new table instead of row by row, which comes to the same for every statement modelled here.
- Timestamps, `exported_at`, JSON encoding, and the actor, tool and confirmation fields of events: copied, never read by what is proved.
- Store.ListRows: does not model the ORDER BY of listings; rows come in any order, and every result holds for all of them, so results that keep "listing order" keep the order they were given.
- Inventory.ItemRests: valid labels differ ignoring ASCII case, where the source lower-cases all of Unicode.
- BackupRun.NameWorld.CheckItems: accepts labels that differ in the case of a letter outside ASCII, which the source refuses, for the same reason.
- BackupRun.Import: a validation error is one value; its field paths and the index it points at are not modelled.
- BackupRun.NameWorld.ApplyContainer: the plain errors of names that disappear while importing are one value, `Broken`.
- BackupExport.Export: the errors for dangling rows are not reachable from a sound store and have no branch.
- Search.CandidateExact: asks that folding leave no capital ASCII letters; limits of SQLite on the length of LIKE patterns are not modelled.
- Limiter.FixedWindow: both protocols hold a lock around each step, so steps are atomic; seconds are computed on integers instead of floating point.
- Tag comparison in counts is a parameter, standing for Unicode case folding.
- Rendering of items and rooms for a model, `ListLocation` and `GetItem`: they call what is proved here.
