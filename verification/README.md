# Letopis, verified

Letopis keeps the history of entities as an append-only log of events. Each event
carries a diff; the current state (`cur_*`) and the snapshots (`sn_*`) are caches of
a replay of the log. This project models the parts where that idea is at stake and
proves what they keep.

- **Diff engine.** `Json`, `Paths`, `Diff`, `Apply`: JSON values, textual paths, the
  diff and its application. A diff is first a list of `Edit`s with structured
  locations, then the printed `Change`s the program stores; parsing the printed text
  is proved, not assumed. `Locations` says what one change does to a value, read
  location by location; `Undo` what a diff records of its source, and that it can be
  taken back. `RoundTrip`, `Order`, `Textual`, `Exactness` and `EmptyNames` prove the
  round trip, `JsonPatch` the export to RFC 6902, `DiffEngine` the loops that compute all
  this.
- **Event sourcing.** `Events` (replay), `HashChain`, `Ingest` (one write),
  `Coherence` (what every run keeps), `Reads` (point-in-time reads), `Batch`,
  `Ingester` and `WritePaths` (the fast batch path and the service over all
  collections), `Audit` (what every stored event carries, and that every history is a
  chain that verifies).
- **Protocols.** `Appends` (version allocation by concurrent writers), `Receipts`
  (receipt dedup), `MemoryQueue` and `Dispatch` (webhook delivery and redelivery). Each
  is a state machine over atomic steps; theorems are about every schedule. The class
  beside it runs the program's own code; its invariant says that its fields are what a
  schedule leaves, so the theorems hold of it. An append, a reservation, a publish and a
  depth count take several steps, with arbitrary steps of the others in between; the
  dispatcher's methods take one step each. `Reclaims` adds the queue's handing out a
  task twice, `Webhooks` holds what dispatch and redelivery share, `DeadLetters` the
  redelivery loop.
- **Order and arithmetic.** `Flow` (paging), `Ulid`, `Backoff`.

`Text` and `Wrappers` hold what several modules share.

Where the program does less than its comments, tests or documents promise, the model
follows the code; a lemma shows an input that fails and another says exactly when the
promise holds:

- Diff then apply is documented for any JSON values. It fails for a member named
  `a.b` (`Exactness.DottedNameFails`) and for roots that differ under the empty name
  (`EmptyNames.EmptyNameFails`), and holds exactly when the roots agree there and the
  differences sit under names that can be printed (`EmptyNames.RoundTripExact`). With
  keyed arrays, under printable names, it holds exactly when the target is already in
  merge order (`Textual.ApplyDiffExact`).
- The JSON Patch export turns one value into the other exactly when the roots agree on
  the empty name and no member on the way to a difference has a dot or a bracket in its
  name (`JsonPatch.PatchExactly`); all-digit names, which stored diffs cannot carry, are
  fine here.
- A state write that says op=delete logs a delete but stores a live state
  (`Coherence.DeletingStateWriteBreaks`). A create-with-state matches the replay over a
  live entity exactly when it leaves out no live member
  (`Coherence.CreateMatchesExactly`), over nothing exactly when its names can be
  printed (`Coherence.CreateOnNothingExactly`).
- A read at a time before the first event is documented to find nothing. A cutoff at
  the zero instant, `?at=0001-01-01T00:00:00Z`, answers with the latest version
  (`Reads.ZeroCutoffReadsLatest`); it is the only one that does not
  (`Reads.TooEarlyExactly`).
- A batch equals the same writes one by one exactly when none of those would be refused
  as a repeat or for the version it expects (`Batch.BatchRefinesExactly`,
  `Ingester.BatchIsSequence`). The batch never looks at an expected version, which is
  documented to answer 409 (`doc/write-api.md`, lines 114 and 127): a delete that expects
  version 5 of an unknown entity is carried out (`Batch.ExpectedVersionIgnored`). When
  its insert is refused part-way, the events it did insert are unknown to `cur_*`
  (`Batch.RefusedBatchGoesStale`). Versions and the chain survive that too
  (`WritePaths.ChainHoldsOnBothPaths`).
- Receipt dedup accepts a delivery at most once, however many publishes fail, as long
  as nobody goes ahead without the key (`Receipts.AcceptedAtMostOnce`); the step that
  does is exactly what makes a second accept possible (`Receipts.StrayExactly`). It
  takes three failed publishes (`Receipts.ThreeFailuresAcceptTwo`,
  `Receipts.AtMostOnceExactly`). A repeat is to replay an earlier accept, but it may be
  answered with a ticket that is then refused (`Receipts.AnsweredTicketRefused`), exactly
  as long as that ticket's delivery has not been accepted (`Receipts.AnsweredExactly`).
- A webhook is in one place exactly as long as no task waiting its turn is reclaimed
  (`Reclaims.CopiesCount`). Without redeliveries, n reclaims allow n + 1 times its cap of
  requests and no more, and some run makes that many (`Reclaims.BoundIsReached`); one
  reclaim is enough for it to be delivered and dead at once
  (`Reclaims.DeliveredAndDead`).
- A redelivered webhook is documented to follow the retry policy of the original
  (`doc/admin-api.md`, line 445). It does exactly when the rule's own cap and timeout
  were unset or the defaults (`Webhooks.PolicyKeptExactly`, `Webhooks.OwnCapForgotten`).
- The backoff misses its documented schedule exactly when the shift wraps into the
  window below the cap or is refused although it fits (`Backoff.DelayExactly`).
- Paging loses nothing at every page size exactly when no two nodes share time and id
  (`Flow.PagingExactly`), which different nodes of collections with valid names never do
  (`Flow.DistinctNodesPage`).

Two lemmas say what guards elsewhere are there for: `Reads.NonPositiveVersionReadsAll`
(the handler refuses versions below 1, `internal/server/read.go`, lines 145-147) and
`Flow.BarredNameClashes` (collection names cannot hold a bar,
`internal/storage/mongo/names.go`, lines 53-60).

## Model

| member | source | states |
|---|---|---|
| Paths.ParseRender | internal/diff/apply.go:207-249 | parsing the text of any printable list of key, index and selector segments gives back exactly that list |
| Paths.ParsesExactly | internal/diff/apply.go:207-228 | a path is refused if and only if one of its pieces holds a malformed selector |
| Diff.TextOfRender | internal/diff/diff.go:222-235 | the path the diff builds while descending is the rendering of the whole location |
| RoundTrip.EditsReach | internal/diff/diff.go:68-158 | replaying the edits from a to b onto a, each at its location, succeeds and gives the merge of a and b: keyed arrays list a's survivors in a's order, then b's new elements; also when changed members must already exist |
| Order.IndexModeMerges | internal/diff/diff.go:118-129 | without keyed arrays the merge of a and b is b |
| Order.OrderedMerges | internal/diff/diff.go:135-158 | if every keyed array of b lists a's survivors in a's order before any newcomer, the merge is b |
| Order.MergesOrdered | internal/diff/diff.go:135-158 | conversely, if the merge is b then b has that order at every keyed array, recursively |
| Apply.LiftKey | internal/diff/apply.go:40-154 | a run of edits below an object member acts on that member alone |
| Apply.LiftIndex | internal/diff/apply.go:40-154 | a run of edits below an array element acts on that element alone |
| Apply.LiftKeyed | internal/diff/apply.go:116-165 | a run of edits that keeps an element's identity finds and changes that element alone |
| Locations.AppliesExactly | internal/diff/apply.go:40-154 | for every value and change below the root: it succeeds if and only if the container it names exists there and the operation makes sense in it |
| Locations.ChangeReads | internal/diff/apply.go:40-165 | for every value, change and location: afterwards the place it names holds the new value, elements behind an insertion or removal have moved by one, and every other location below or beside the container reads as before |
| Locations.ContainerAfter | internal/diff/apply.go:65-165 | the container of a change before and after it: a selector replaces or removes the first element with that identity and an addition by selector comes last; an index replaces, removes or inserts at it, up to the length; every other member or element is kept |
| Undo.EditsRecord | internal/diff/diff.go:68-158 | every edit of a diff, keyed or not, tells what is at its location in the source and in the target, which differ: an addition where the source has nothing, a removal where the target has nothing, else both values |
| Undo.StoredRecords | internal/diff/diff.go:8-9 | the same of the stored change, at the location its path reads back as |
| Undo.UndoEdits | internal/diff/diff.go:62-158 | in index mode, for all values, the edits reversed with old and new exchanged turn the target back into the source |
| Undo.UndoStored | internal/diff/diff.go:62-66 | so do the stored changes, wherever the diff round-trips |
| Textual.ApplyDiff | internal/diff/apply.go:14-35 | applying the stored, printed diff to its source succeeds and gives the merge of source and target |
| Textual.ApplyDiffExact | internal/diff/diff.go:135-158 | with keyed arrays the printed diff rebuilds the target exactly when the target is in merge order |
| Textual.EmptyDiff | internal/diff/diff.go:62-95 | in index mode the diff is empty if and only if the values are equal |
| Textual.RoundTripSafe | internal/diff/diff.go:59-66 | for all values with safe names, apply after diff is the target |
| Textual.RoundTripKeyed | internal/diff/diff.go:135-158 | for all values with safe names and any keyed arrays, apply after diff is the merge, and the target if and only if it is in merge order |
| EmptyNames.RoundTripExact | internal/diff/apply.go:203-249 | for all values, index mode: apply after diff is the target if and only if every member on the way to a difference has a printable name and the two roots agree on the member with the empty name |
| EmptyNames.UnprintableFails | internal/diff/apply.go:203-249 | a diff with a change below an unprintable name never rebuilds the target, whatever the other changes do |
| Exactness.DottedNameFails | internal/diff/diff.go:59-62 | adding a member named a.b does not round-trip |
| EmptyNames.EmptyNameFails | internal/diff/diff.go:222-227 | a diff between two root objects that differ under the empty name never rebuilds the target, although such a change replaces the whole root |
| DiffEngine.ComputeDiff | internal/diff/diff.go:62-66 | the accumulating diff computes the printed edits, whose recorded values are Undo.EditsRecord and whose effect is Textual.RoundTripKeyed |
| DiffEngine.Recorder.DiffValue | internal/diff/diff.go:68-95 | comparing two values appends their printed edits to the shared list and nothing else |
| DiffEngine.Recorder.DiffMap | internal/diff/diff.go:97-113 | the members are visited in ascending name order and their printed edits appended; what each records is Undo.EditsRecord |
| DiffEngine.Recorder.DiffIndexArray | internal/diff/diff.go:118-129 | common positions, then additions ascending, then removals descending |
| DiffEngine.Recorder.DiffKeyedArray | internal/diff/diff.go:135-158 | source elements by identity, then the target's unmatched elements |
| DiffEngine.SortedUnion | internal/diff/diff.go:165-178 | the names of both objects, each once, ascending |
| DiffEngine.CheckKeyable | internal/diff/diff.go:183-200 | true exactly if every element is an object with a scalar value of its own under the field |
| DiffEngine.FindKey | internal/diff/apply.go:156-165 | the first element with the identity, or -1 |
| DiffEngine.AtoiIndex | internal/diff/apply.go:237-249 | a number exactly for non-empty all-digit text, with 64-bit wrap-around |
| DiffEngine.Parse | internal/diff/apply.go:207-228 | the piece-by-piece parser computes the parse, first error included |
| DiffEngine.ApplyChanges | internal/diff/apply.go:14-35 | the loop over the changes computes the application, first error included; what each change does is Locations.ChangeReads |
| JsonPatch.UnescapeEscape | internal/diff/jsonpatch.go:68-71 | RFC 6901 section 4 unescaping undoes token escaping, for every string |
| JsonPatch.StepSimulates | internal/diff/jsonpatch.go:31-50 | where an edit succeeds on a document, the RFC 6902 operation at its tokens gives the same document |
| JsonPatch.LocatedStep | internal/diff/jsonpatch.go:31-50 | conversely, where an operation succeeds on a document, the change at the location its tokens name there gives the same document |
| JsonPatch.EmptyNamePatchFails | internal/diff/jsonpatch.go:52-56 | a patch between two root objects that differ under the empty name is refused or never gives the target, although its pointer names the whole document |
| JsonPatch.PatchExactly | internal/diff/jsonpatch.go:31-71 | for all values, exporting an index-mode diff succeeds and running the patch under sections 4.1 to 4.3 of RFC 6902 turns a into b if and only if no member on the way to a difference has a dot or a bracket in its name and the roots agree on the member with the empty name |
| JsonPatch.ExportExactly | internal/diff/jsonpatch.go:31-65 | a change can be exported if and only if its path has no selector and its operation is one of the three; a selector is reported first |
| JsonPatch.ExportsExactly | internal/diff/jsonpatch.go:31-50 | a list is exported if and only if every change in it can be |
| JsonPatch.BuildPointer | internal/diff/jsonpatch.go:52-65 | the pointer builder computes the exported pointer, and refuses selectors |
| JsonPatch.ToJsonPatch | internal/diff/jsonpatch.go:31-50 | the export loop computes the patch, first error included |
| Events.ReplayConcat | internal/domain/snapshot_recon.go:29-46 | replaying xs then ys is replaying both, errors included |
| Events.ReconstructSplit | internal/domain/snapshot_recon.go:19-48 | reconstruction composes over any split of the events, also right after a delete |
| Events.ReconstructEvents | internal/domain/snapshot_recon.go:19-48 | the replay loop computes the reconstruction |
| HashChain.CanonicalFaithful | internal/plugin/hashchain/hashchain.go:138-217 | equal canonical values mean equal signed fields, although absent members are dropped |
| HashChain.CanonicalFields | internal/plugin/hashchain/hashchain.go:138-159 | the signed object holds each field of the projection under its own name, and only those that are set |
| HashChain.CanonicalChange | internal/plugin/hashchain/hashchain.go:164-179 | a signed change holds path and op, the old value unless it is an addition and the new one unless it is a removal |
| HashChain.CanonicalFlow | internal/plugin/hashchain/hashchain.go:181-197 | a signed flow block holds what of id, step and causes there is |
| HashChain.CanonicalRef | internal/plugin/hashchain/hashchain.go:199-217 | so does each cause, of its five fields |
| HashChain.GenesisIsNoLink | internal/plugin/hashchain/hashchain.go:112-129 | no link hash equals any collection's genesis |
| HashChain.LinkDetermined | internal/plugin/hashchain/hashchain.go:120-129 | equal hashes of two verified links mean equal predecessors and equal signed fields |
| HashChain.TamperEvident | internal/plugin/hashchain/hashchain.go:112-217 | two verifying chains with the same last hash belong to the same collection, have the same length and the same signed fields at every position |
| Ingest.HooksKeepEvent | internal/plugin/host.go:48-71 | whatever hooks run and fail, they change nothing of an event but its integrity block |
| Ingest.HooksIgnoreVersion | internal/plugin/host.go:48-71 | the hooks do the same to an event before and after it is numbered |
| Ingest.LastOf | internal/storage/mongo/event_repo.go:103-122 | in a gap-free history the highest version is the number of events and belongs to the last one |
| Ingest.RefusedExactly | internal/plugin/host.go:48-71 | the hooks refuse an event if and only if an enabled fail-closed plugin is reached and fails |
| Ingest.PlanLeads | internal/service/ingest.go:182-302 | a planned event carries its command: entity, id, origin and time; its change list is the diff from base to state, or from nothing, or the client's own, by kind, and the planned state is what that list makes of the base |
| Coherence.WriteOutcomes | internal/service/ingest.go:120-164 | by outcome: only a stored write changes the store, by exactly one event, numbered next, that carries its command and leads from the live state to the new current state, with current state and snapshot stamped with the write's time; a version conflict is reported if and only if an expected version differs; a repeated event id is not stored |
| Coherence.UnchangedExactly | internal/service/ingest.go:185-189 | a state write without keyed arrays is a no-op if and only if the state is the live one |
| Coherence.DiffOutcomes | internal/service/ingest.go:192-230 | a client diff or delete past its version check: a no-op if and only if it brings nothing and deletes nothing, rejected if and only if its changes do not apply to the live state or do not leave an object, of unknown kind if and only if its kind is |
| Coherence.CreateExactly | internal/service/ingest.go:322-333 | without an explicit op, a stored write other than a delete is a create if and only if the entity is new or its last event deleted it and the collection does not start with updates, and an update otherwise |
| Coherence.DeleteRetains | internal/service/ingest.go:112-117 | a stored delete keeps the last live state, flagged deleted, and the next write starts from nothing |
| Coherence.CreateOverlays | internal/service/ingest.go:204-208 | the diff a create-with-state logs overlays the state on whatever it is replayed over |
| Coherence.PlanReplays | internal/service/ingest.go:182-230 | replaying the planned event of a well-formed command from the base shows the planned state |
| Coherence.EnrichedLinks | internal/plugin/hashchain/hashchain.go:53-64 | an integrity block the hooks leave links to the immediate predecessor, or to the genesis exactly when that is missing or unlinked, after any mix of fail-open and fail-closed errors; when there is one is Coherence.HooksLink |
| Coherence.HooksLink | internal/plugin/host.go:48-71 | hooks that let an event pass leave an integrity block if and only if the chain is one of the enabled ones and the event can be encoded |
| Coherence.WriteLinks | internal/plugin/hashchain/hashchain.go:53-129 | a stored write carries no integrity block if and only if the chain is off or its event cannot be encoded, and else the hash of its predecessor's hash, or of the genesis text, followed by its own canonical bytes, written out |
| Coherence.WriteKeepsGood | internal/service/ingest.go:120-164 | one well-formed write keeps versions gap-free, caches equal to replay, event ids unique and the chain linked |
| Coherence.RunKeepsGood | internal/service/ingest.go:120-273 | so does every run of well-formed commands, including rejected, repeated and no-op ones and delete and recreate cycles |
| Coherence.CachesEqualReplay | internal/service/ingest.go:120-273 | from an empty store, after every such run, each current state and each snapshot is the replay of its history |
| Coherence.DiffsAndDeletesMatch | internal/service/ingest.go:192-230 | after a stored client diff or delete the current state equals the replay |
| Coherence.DeletingStateWriteBreaks | internal/service/ingest.go:185-191 | a stored state write with op=delete always leaves a current state that differs from the replay |
| Coherence.CreateMatchesExactly | internal/service/ingest.go:204-208 | a create-with-state matches the replay if and only if every live member occurs in it |
| Coherence.CreateOnNothingExactly | internal/service/ingest.go:204-208 | over a missing or deleted entity it matches if and only if all its names are printable |
| Coherence.StateMatchesExactly | internal/service/ingest.go:185-191 | a state write without keyed arrays matches the replay if and only if its differences sit under printable names and it agrees with the base on the member with the empty name |
| Reads.ReadEqualsReplay | internal/service/read.go:56-97 | a read at a version, a time or the latest shows the replay of the history up to the version asked for and the time that version was received, whatever snapshots exist or can be looked up |
| Reads.SnapshotsOnlySpeedReads | internal/service/read.go:124-135 | dropping any snapshots changes neither state, deleted flag, time nor version of any answer |
| Reads.TooEarlyExactly | internal/service/read.go:102-120 | a time before the first event is not found if and only if it is not the zero instant |
| Reads.ZeroCutoffReadsLatest | internal/storage/mongo/event_repo.go:207-219 | a read at the zero instant answers as a read of the latest version |
| Reads.NonPositiveVersionReadsAll | internal/storage/mongo/event_repo.go:199-201 | version 0 or below shows the current state and applies every event |
| Reads.RunKeepsSaved | internal/service/snapshot.go:31-39 | after every run a snapshot exists exactly at the interval's versions whose save succeeded |
| Reads.TailIsBounded | internal/service/read.go:56-97 | with interval k and every save succeeding, a read of version n applies n mod k events |
| Batch.RunHooks | internal/plugin/host.go:48-71 | the hook loop computes the hooks in order, stopping at the first fail-closed error |
| Batch.FoldOne | internal/service/batch.go:66-123 | the loop body computes one step of the fold |
| Batch.FoldInputs | internal/service/batch.go:66-123 | the loop computes the fold over one collection's items |
| Batch.StepMirrors | internal/service/batch.go:66-123 | one fold step mirrors one single write that passes its version check: store, tables and faults stay in correspondence |
| Batch.FreshInserts | internal/service/batch.go:128-133 | with distinct event ids not yet stored, locally numbered events never clash, whatever versions are expected |
| Batch.InsertsExactly | internal/service/batch.go:128-133 | the one insert of a batch goes through if and only if the same writes one at a time, without the versions they expect, report no repeat |
| Batch.BatchRefinesExactly | internal/service/batch.go:44-148 | from any gap-free store, one collection's batch leaves the log, current states, snapshots and per-item faults of the same writes one at a time if and only if none of those is refused as a repeat or for the version it expects |
| Batch.FoldIgnoresExpected | internal/service/batch.go:64-124 | the batch does the same whatever versions its items expect |
| Batch.ExpectedVersionIgnored | internal/service/batch.go:64-124 | a delete of an unknown entity that expects version 5 is refused on its own and carried out in a batch |
| Batch.BatchRefinesSequence | internal/service/batch.go:44-148 | for distinct, unused event ids it does if and only if no expected version is refused |
| Batch.RefusedBatchGoesStale | internal/service/batch.go:128-133 | after a refused insert the log and the current states still agree if and only if nothing was inserted |
| Ingester.Service.ApplyOne | internal/service/ingest.go:120-164 | one write changes the stores of its collection as specified and no other collection |
| Ingester.InsertOrdered | internal/storage/mongo/event_repo.go:76-101 | the ordered insert stores a prefix up to the first taken key |
| Ingester.UpsertAll | internal/service/batch.go:136-138 | the final states win, in whatever order they are written |
| Ingester.SnapshotAll | internal/service/batch.go:140-142 | one snapshot per event on the interval whose save succeeds |
| Ingester.StoreFold | internal/service/batch.go:125-142 | the fold's results reach the stores; a refused insert faults every item that fed it |
| Ingester.Service.BatchCollection | internal/service/batch.go:44-148 | a collection takes its share and each fault lands on its own item; other items' faults are untouched |
| Ingester.Group | internal/service/batch.go:22-33 | the collections in order of first sight, each with all positions of its items in arrival order |
| Ingester.Service.IngestBatch | internal/service/batch.go:22-37 | after the batch every collection has taken exactly its share, and unknown collections are faulted |
| Ingester.WorldProjects | internal/service/ingest.go:120-164 | in a run over all collections each one sees only its own items, and they report what its own run reports |
| Ingester.BatchIsSequence | internal/service/batch.go:22-148 | over all collections the batch leaves the stores and faults of the items written one by one if and only if none of those is refused as a repeat or for the version it expects |
| Ingester.FreshBatchIsSequence | internal/service/batch.go:22-148 | for distinct, unused event ids it does if and only if no expected version is refused |
| WritePaths.WriteKeepsChain | internal/service/ingest.go:139-148 | any write, well-formed or not, keeps versions gap-free and the chain linked, also on current states that have gone stale |
| WritePaths.BatchKeepsChain | internal/service/batch.go:101-133 | so does any batch, also one whose insert is refused part-way |
| WritePaths.GroupingIsInvisible | internal/service/batch.go:22-148 | from any gap-free store, any mix of single writes and batches whose items are not refused as repeats or for their expected versions leaves what the same writes one by one leave |
| WritePaths.ChainHoldsOnBothPaths | internal/service/batch.go:101-111 | in every mix of single writes and batches, refused or not, versions stay gap-free and each event with an integrity block links to its immediate predecessor; which events have one is Audit.EveryLinkIs |
| WritePaths.CachesEqualReplayOnBothPaths | internal/service/batch.go:44-148 | from any coherent store, in every such mix of well-formed commands caches equal replay |
| Audit.FoldCarries | internal/service/batch.go:66-123 | every event a batch would insert carries the command of its own item, is linked exactly if the chain is on and it can be encoded, and no item feeds two |
| Audit.RefusedBatchFaults | internal/service/batch.go:128-133 | a batch whose insert is refused leaves a proper part of its events and reports every item that fed it as a duplicate, the others as they went |
| Audit.EveryEventAsked | internal/service/batch.go:22-148 | in every mix of single writes and batches, refused or not, the log only grows, by events that each carry what one of the writes asked for |
| Audit.EveryLinkIs | internal/plugin/hashchain/hashchain.go:53-129 | in every such run each event of each history has the integrity block written out for its place, or none exactly if the chain is off or it cannot be encoded |
| Audit.EveryHistoryVerifies | internal/plugin/hashchain/hashchain.go:53-129 | with the chain on and an encoder that never fails, after every such run every event is linked and every history is a chain that verifies from the genesis |
| Audit.HistoriesTamperEvident | internal/plugin/hashchain/hashchain.go:112-217 | hence two such runs whose histories end in the same hash hold the same history in every signed field |
| Appends.TakenExactly | internal/storage/mongo/event_repo.go:278-300 | in a gap-free log exactly the versions 1..n are taken |
| Appends.BatchAdvances | internal/storage/mongo/event_repo.go:76-101 | a batch numbered from a possibly stale version never skips one |
| Appends.VersionsGapFree | internal/storage/mongo/event_repo.go:39-101 | under every schedule of concurrent appends and batches each entity's stored versions are exactly 1..n, each once, and no event id is stored twice |
| Appends.RetryHasWitness | internal/storage/mongo/event_repo.go:49-62 | every retry is witnessed by a distinct insert of another writer |
| Appends.GivingUpHasWitnesses | internal/storage/mongo/event_repo.go:49-70 | a writer that gives up has seen sixteen documents of its entity stored since it began, none its own |
| Appends.Repo.AppendEvent | internal/storage/mongo/event_repo.go:39-71 | with any interference between its calls, an append stores the next version, or finds its event id stored, or gives up after sixteen inserts of others; the run is a schedule |
| Receipts.AcceptedAtMostOnce | internal/service/pipeline.go:149-191 | in every schedule, however many publishes fail, at most one delivery is accepted as long as none has gone ahead without the key |
| Receipts.AcceptedForGood | internal/service/pipeline.go:149-191 | once one is accepted with nobody ahead of the key, it stays so and no other is accepted whatever follows |
| Receipts.SettledStays | internal/storage/redis/idempotency_store.go:52-76 | nor can anybody go ahead without the key any more |
| Receipts.RepeatsAnswerSameTicket | internal/service/pipeline.go:164-177 | from then on a repeat loses the key and answers with that ticket |
| Receipts.StrayExactly | internal/storage/redis/idempotency_store.go:73-76 | in a schedule where everybody kept to the key, a step makes two accepts possible if and only if it is a last get that misses and goes ahead |
| Receipts.StrayReleaseReopens | internal/service/pipeline.go:178-187 | a delivery out without the key that fails gives back the key of an accepted one, after which another can be accepted by rule |
| Receipts.AnsweredExactly | internal/service/pipeline.go:164-187 | in every schedule a ticket a repeat was answered with can still be refused if and only if its delivery has not been accepted |
| Receipts.AnsweredTicketRefused | internal/service/pipeline.go:173-187 | a schedule in which one delivery is refused, the other answered with its ticket, and nothing accepted |
| Receipts.ThreeFailuresAcceptTwo | internal/storage/redis/idempotency_store.go:52-76 | a schedule with three failed publishes in which two deliveries are accepted |
| Receipts.AtMostOnceExactly | internal/storage/redis/idempotency_store.go:52-76 | counting failed publishes alone, at most one accept is guaranteed for all schedules with up to n of them if and only if n is at most two |
| Receipts.Barrier.Reserve | internal/storage/redis/idempotency_store.go:43-76 | with any interference between its calls, the loop reserves or names the holder, and the accepted delivery if there is one and nobody has gone ahead without the key; the run is a schedule |
| Receipts.Barrier.Enqueue | internal/service/pipeline.go:149-191 | a delivery is accepted, answered or refused; once another is accepted with nobody ahead of the key it is answered with that ticket |
| MemoryQueue.StepKeepsInv | internal/queue/memory/memory.go:68-150 | every step keeps each stamped message on record in exactly the place it is in |
| MemoryQueue.ShardIsResidue | internal/queue/queue.go:104-111 | a message goes to the shard that is the remainder of its key's hash |
| MemoryQueue.ExactlyOnePlace | internal/queue/memory/memory.go:68-135 | in every run each sent message is in exactly one of its shard's channel, a pump's hand, the pending table as published, or acknowledged |
| MemoryQueue.TakenInOrder | internal/queue/memory/memory.go:98-128 | what was sent to a shard is what was taken followed by what is buffered, each once |
| MemoryQueue.AckedForGood | internal/queue/memory/memory.go:130-135 | an acknowledged message is never buffered, held or pending again |
| MemoryQueue.DepthIsBacklog | internal/queue/memory/memory.go:155-163 | the depth is sent less acknowledged less what pumps hold |
| MemoryQueue.Queue.Publish | internal/queue/memory/memory.go:68-92 | stamps an id, then, whatever others do in between, the message is last of what was sent to its shard, or was never sent if the caller has gone, or waits while the channel is full; the run is a schedule |
| MemoryQueue.Queue.Receive | internal/queue/memory/memory.go:104-110 | a pump takes what is next in the order of sending |
| MemoryQueue.Queue.HandOut | internal/queue/memory/memory.go:110-115 | the message is pending as published and from now on, and not acknowledged, before it is handed out |
| MemoryQueue.Queue.Acknowledge | internal/queue/memory/memory.go:130-135 | the message is not pending any more and acknowledged if it was pending; nothing else stops or starts being pending |
| MemoryQueue.AgeAll | internal/queue/memory/memory.go:137-150 | whatever order the table is walked in, exactly the idle entries come out, each once, with its count one higher and idle from now on |
| MemoryQueue.Queue.ReclaimIdle | internal/queue/memory/memory.go:137-150 | the shard's table and the redelivered messages after a reclaim |
| MemoryQueue.Queue.Depth | internal/queue/memory/memory.go:155-163 | read shard by shard while others send and take, the count is sent less acknowledged less held, off by at most what they sent and took meanwhile |
| Dispatch.NothingIsLost | internal/delivery/dispatcher.go:174-242 | in every run, redeliveries included, each submitted delivery is in exactly one of queue, retry wait, delivered and DLQ, unchanged but for its attempt count and what a redelivery forgets, with at most its cap of requests plus the default cap per redelivery |
| Dispatch.ExhaustedAtCap | internal/delivery/dispatcher.go:220-233 | a parked delivery has made exactly the cap in force since it was submitted or last redelivered if and only if it is parked as exhausted |
| Dispatch.StepsAreBounded | internal/delivery/dispatcher.go:192-319 | each step on a delivery brings it closer to delivered or parked, and no other step affects it |
| Dispatch.WorkIsBounded | internal/delivery/dispatcher.go:192-319 | in every run the dispatcher takes at most two steps on a delivery per request it is allowed, redeliveries included |
| Dispatch.DeliveredExactly | internal/delivery/dispatcher.go:192-212 | in every run a delivery is delivered if and only if one of its signed requests succeeded |
| Dispatch.SecretsRespected | internal/delivery/dispatcher.go:192-200 | no request is made without a known secret, and a delivery is parked for an unknown secret if and only if it is unknown |
| Dispatch.ParkedWhy | internal/delivery/dispatcher.go:192-319 | in every run the reason a parked delivery carries is what the dispatcher's last step on it met: an unknown secret, a blocked target, the last allowed failure, or a queue that did not take it back |
| Dispatch.ProcessKeepsInv | internal/delivery/dispatcher.go:192-242 | an attempt on a delivery within its cap that nobody holds leaves it in exactly one place, itself, with its requests counted and its reason right |
| Reclaims.CopiesCount | internal/delivery/dispatcher.go:148-168 | in every run with reclaims there is one copy of a delivery and one more per reclaim, each copy is the delivery, and requests are at most a round for it, one per redelivery and one per reclaim |
| Reclaims.BoundIsReached | internal/delivery/dispatcher.go:148-168 | with n reclaims and no redelivery some run makes n + 1 times its cap of requests |
| Reclaims.DeliveredAndDead | internal/delivery/dispatcher.go:148-185 | one reclaim is enough for a delivery to be delivered and in the DLQ |
| Reclaims.DispatchIsReclaimFree | internal/delivery/dispatcher.go:174-346 | every run without reclaims is, for each delivery, a run of this machine whose one copy is where the dispatcher has it, with the same counts |
| Dispatch.Dispatcher.HandleTask | internal/delivery/dispatcher.go:174-185 | a handled delivery has left the queue and come closer to its end within its bounds, is delivered if and only if a signed request succeeded, and no other delivery is touched; the run is a schedule |
| Dispatch.Dispatcher.Republish | internal/delivery/dispatcher.go:288-319 | a woken retry has left the wait and come closer to its end, unchanged in the queue or parked with the reason, and no other delivery is touched; the run is a schedule |
| Dispatch.Dispatcher.Redeliver | internal/service/dlq.go:98-106 | a redelivered delivery is back in the queue as submitted but for what is forgotten, its earlier requests still count, and it is allowed the default cap more; a refused one is untouched |
| Webhooks.RequeueRestores | internal/service/webhook_publisher.go:66-90 | parking a task and requeueing its letter gives back its delivery id, rule, collection, target, secret and body with no attempts made; the rule's name, timeout and cap are lost |
| Webhooks.PolicyKeptExactly | internal/service/webhook_publisher.go:71-84 | the requeued task is tried under the cap and timeout of the original if and only if its own were unset or the defaults |
| DeadLetters.DeleteFirst | internal/service/dlq.go:98-106 | deleting a rule's first letter takes it off the rule's list and touches no other letter |
| DeadLetters.Service.RedeliverOne | internal/service/dlq.go:98-106 | requeues before deleting: a refused letter stays parked, and one whose delete fails is requeued and stays |
| DeadLetters.Service.RedeliverPage | internal/service/dlq.go:82-87 | one page is requeued in order up to the first refusal |
| DeadLetters.Service.RedeliverAll | internal/service/dlq.go:70-92 | terminates; each of the rule's letters is requeued once, in order, up to the first refusal, and no other rule's letter moves |
| Flow.SortSorts | internal/domain/activity.go:108-114 | the nodes come out in order of the comparison, none dropped or added; what that order is on times and id texts is Flow.RestRemains |
| Flow.AssembleFlow | internal/domain/activity.go:99-129 | merge, sort, skip and cut show, of the merged nodes later than the cursor by time or by id text, each as often as it occurs, the earliest up to the limit in that order, and hand out the last one shown as the cursor if and only if the limit cut something off |
| Flow.RestRemains | internal/domain/activity.go:79-129 | what is left past a cursor, as times never going down and, at one time, id texts never going down by their first difference |
| Flow.ActivitiesFirst | internal/domain/activity.go:61-69 | at one time activities are listed before events |
| Flow.FollowIsRest | internal/domain/activity.go:94-129 | for nodes that differ in time or id, following cursors from any position terminates and lists the rest of the sorted merge, at every limit |
| Flow.PagingExactly | internal/domain/activity.go:94-129 | following cursors lists the full sorted merge at every limit if and only if no two nodes share time and id |
| Flow.PresentSeenOnce | internal/domain/activity.go:94-129 | whatever arrives between fetches, no node is seen twice, and a node present throughout is seen exactly when the cursor has passed it or the last page is read |
| Flow.NodeIdInjective | internal/domain/activity.go:61-69 | for collection names without a bar, equal node ids mean the same activity or the same collection, entity and version |
| Flow.DistinctNodesPage | internal/domain/activity.go:61-129 | hence different nodes are all listed by following cursors, at every limit and however many share a time |
| Flow.BarredNameClashes | internal/domain/activity.go:61-69 | every event of a collection with a bar in its name shares its id with another possible event |
| Ulid.CarryIsSum | internal/domain/id.go:58-71 | the bits carried from the high word never overlap the shifted low word, so their OR is the sum |
| Ulid.Encode | internal/domain/id.go:58-71 | the two-word shift loop writes the 26 base-32 digits of the 128-bit value |
| Ulid.EncodingFaithful | internal/domain/id.go:58-71 | decoding inverts encoding, and the strings sort as the values do |
| Ulid.LaterSortsLater | internal/domain/id.go:42-53 | an id of a later millisecond sorts later, whatever its random part |
| Backoff.DelayInRange | internal/delivery/delivery.go:150-170 | whatever wraps, the delay is positive and at most the cap |
| Backoff.DelayExactly | internal/delivery/delivery.go:146-170 | the delay is min(base * 2^attempt, max) if and only if the shift neither wraps into the window below the cap nor is refused although it fits |
| Backoff.DelayIsSchedule | internal/delivery/delivery.go:146-170 | with base * max at most 2^63 and max at most 2^62 it is, at every attempt |
| Backoff.DelayMonotone | internal/delivery/delivery.go:146-170 | and never shrinks from one attempt to the next |
| Backoff.HugeBaseMisses | internal/delivery/delivery.go:161-165 | a base of 2^62 + 1 wraps to 4 nanoseconds at the second retry |

## Left out

- Textual.ApplyDiff: asks for printable locations; what an index-mode diff does at others is EmptyNames.RoundTripExact.
- Textual.ApplyDiffExact: asks for printable locations too; a keyed diff at others is not characterised.
- DiffEngine.ApplyChanges: the walk to one location is a function that rebuilds the value, not an update in place.
- Undo.UndoStored: index mode; what a keyed diff records is Undo.StoredRecords, but taking it back is not stated.
- Undo.StoredRecords: asks for printable locations.
- Ingest.HooksKeepEvent: metadata, which a plugin may add, is not part of the event.
- Coherence.CreateOverlays: asks for printable names; over nothing the others are Coherence.CreateOnNothingExactly.
- Coherence.CreateMatchesExactly: asks for the same.
- HashChain.TamperEvident: assumes that the digest does not collide on the inputs of the two chains, that the encoder and the time format are injective, and that changes carry one of the three known operations.
- Audit.HistoriesTamperEvident: assumes the same, an encoder that never fails and the chain on from the start.
- Coherence.CachesEqualReplay: asks for well-formed commands; the exact lemmas of the same module say what happens to the others.
- Receipts.AtMostOnceExactly: keys do not expire and store calls do not fail.
- Dispatch.NothingIsLost: acks and dead-letter saves and deletes succeed, and an attempt whose request cannot be built counts as a request made; tasks handed out twice are the matter of Reclaims.CopiesCount.
- DeadLetters.Service.RedeliverAll: deletes succeed; with a full page of failing deletes the loop would not end.
- Redelivery by a list of letter ids, which takes the same steps one id at a time.
- Values installed by Apply are copied, not shared: the model cannot show a later change reaching into a value that an earlier change of the same list installed by reference.
- Numbers are their formatted text: distinct floats with equal text (and -0 or NaN) are not told apart.
- The limiter, tickets, ticket transitions, reliability modes and tenants of the ingest pipeline.
- Storage faults other than duplicate keys, failed snapshot saves and failed snapshot lookups; crashes between an append and the refresh of the current state.
- Concurrent writers of one entity in the cache and chain results; only version allocation is proved for them.
- TSStored, metadata, and the current state that plugins may look at.
- Post-store plugins, rules evaluation and webhook publishing after a write.
- Queue Close, and the wrap-around of the 64-bit message counter; the Redis Streams backend.
- Jitter, timers, the HTTP request itself, signatures and the SSRF guard.
- SHA-256, JSON bytes and time formatting, which stand as functions with the properties above.
- HTTP and gRPC handlers, configuration, catalog, rule compilation, metrics and the command line: single-branch plumbing.
