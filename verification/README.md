# Mycelium: a verified model of the storage client

Mycelium (PQDOS) stores an object as k data shards and m parity shards, each
encrypted and placed on a different node. A catalog row says where every shard
is, and carries a version that fences concurrent changes. The nodes' shards
describe themselves, so that a lost catalog can be rebuilt from them.

This project models four files of the core and proves what they are for: that
bytes come back as they were put or not at all, whatever else runs.

| Part | Modules |
|---|---|
| Field and matrix algebra of the codec | `GF256`, `Linear` |
| Encoding and decoding, as methods over buffers | `ErasureCodec`, `ErasureDecode` |
| Rendezvous (HRW) placement; repair targets | `Rendezvous`, `RepairTargets` |
| Shard keys and location lists, as text | `ShardKeys`, `Placement` |
| Key-encryption-key ring | `KeyRing` |
| The catalog, as a class over its two tables | `MetadataStore` |
| What nodes hold; what a read makes of it; what is true of it | `Shards`, `History` |
| All client operations as interleaved steps | `Protocol`, `CatalogChanges` |
| Theorems over every run | `Invariant`, `Fence`, `RowUnity`, `Durability`, `CommittedReads`, `RebalanceRuns`, `RepairRuns`, `Stamps` |
| Runs that exist, and what they show | `Runs`, `PutThenGet`, `MoveRuns`, `ReindexRuns`, `RepairRuns`, `FenceLimits`, `RebuildRuns`, `LateRepair` |
| Catalog rebuild | `Reindex`, `Rebuild`, `RebuildResults`, `PassChoice` |
| Rebalance: plan, convergence, budgets | `Rebalance` |
| Shared helpers | `Wrappers`, `Collections` |

## How the system is modelled

**Codec.** A byte is a `bv8`; addition is exclusive or and multiplication is
shift-and-xor modulo 0x11d. The ring laws the matrix proofs need are proved.
ISA-L is a parameter that meets a contract: identity rows on top of the
generator, an inversion that fails or gives a true inverse, and encoding as
matrix times columns. No combination of k rows is claimed to be invertible.
`Decoded` is a simple form that recomputes every data shard; the method `Decode`
follows the source (first copy counts, fast path, data rows before parity rows,
only missing rows recomputed) and is proved equal to it on every input.

**Placement.** The weight is an arbitrary function of shard index and node, so
weights may collide and the address settles ties.

**Protocol.** A world is the nodes' shards, the catalog, the key ring, the
running operations with their progress, and a record of every put ever begun.
Each shard request and each SQL statement or transaction is one step; put, get,
remove, repair, rebalance and reindex interleave freely with each other, with
key rotation, with loss of shards and with damage to ciphertexts. An operation
may stop anywhere. Fresh are the version token and the DEK of a put. Encryption
and wrapping are ideal: a box opens under its own DEK and index, a wrapped DEK
under its own key, and under nothing else. Outcomes that depend on
timeouts, health checks or target choice are all allowed, so the theorems hold
for more runs than the program has. `MetadataStore::get` is two steps, one for
each of its two SELECTs.

## What turned out not to hold

Each of these comes with an input or a run, and with the exact condition.

- The version fence needs that the object is not removed between read and
  commit: removal deletes the row, and the next put starts at version 1 again.
  `Fence.CommitOverRowAsRead` proves the fence with that hypothesis. It is needed
  at every version and for repair and rebalance alike: from any world about to
  commit over version v, `FenceLimits.StaleCommitAfterRemove` gives the run of a
  remove and v puts after which the commit still goes through.
- A row need not come from one put. `RowUnity.TornReadMixes` gives the run: a
  remove and puts fall between the two SELECTs of a rebalance, which then
  commits one put's metadata with the other's locations. Such a row reads back
  nothing, never wrong bytes. The first such commit of a run is exactly one whose
  two SELECTs returned different versions
  (`RowUnity.MixesExactlyWhenSelectsDiffer`), and it takes a remove between the
  reading and the commit (`RowUnity.RowsComeFromOnePut`).
- A rebalance does not only add copies: it copies bytes unchecked, and the node
  overwrites what it has under the key. `RebalanceRuns.DamagedCopyOverwrites`
  gives the run in which an undamaged shard is replaced by a damaged copy, and
  `RebalanceRuns.IntactUnlessDamagedCopy` says exactly when a write does that.
- That repair shares a node only as a last resort (the comment at
  core/StorageClient.cpp:784-787) is false of the loop as a whole:
  `RepairTargets.MayColocateBesideFreeNode`. The exact condition is
  `RepairTargets.ApartExactlyWhenRoom`.
- "Only the shards that node won" move when a node leaves
  (docs/adr/0009-rebalancing.md:61-64) is too strong for greedy placement:
  `Rendezvous.OtherShardMovesToo`. It is true exactly when the best node then free
  for the lost shard holds no other shard (`Rendezvous.OnlyLostShardMoves`);
  `Rendezvous.SingleDisplacement` says what happens otherwise.
- `degraded_objects` is documented as objects with fewer than k shards
  (include/StorageClient.hpp:28); the code counts those with fewer than k + m
  (core/StorageClient.cpp:1115-1117), and so does the model.
  `RebuildRuns.DegradedWithEnoughShards` gives the run that tells them apart, and
  `Rebuild.DegradedAsDocumented` says exactly when the two counts agree.
- A rebuild need not give back the put that the lost row named. Runs are given in
  which a put comes back that never committed, one that was older, and one that
  was removed (`RebuildRuns.UncommittedPutComesBack`, `OlderPutComesBack`,
  `RemovedPutComesBack`). `RebuildResults.RebuiltIsVersion` says exactly when a
  version is the one that comes back.
- That a rebuild does not resurrect an overwritten version (the comment at
  core/StorageClient.cpp:1043-1047) fails when a repair of the old version stamps
  a shard as late as the new put: `LateRepair.OverwrittenPutComesBack`. A
  reconstructable version can come back in some pass exactly when one of its
  shards carries a stamp that no other reconstructable version exceeds with all
  of its shards (`PassChoice.ComesBackExactlyWhenUndone`; for two versions,
  `PassChoice.OlderOfTwoComesBack`). Over runs, no pass brings back a version all
  of whose stamps precede the newer put's
  (`Stamps.OverwrittenStaysOverwritten`).

## Model

| member | source | states |
|---|---|---|
| `GF256.MulAssociative` | core/ErasureCodec.cpp:85-114 | the byte product that ISA-L's coding uses is associative; with the two distributive laws, all the algebra that inversion needs |
| `GF256.MulDoubleLeft` | core/ErasureCodec.cpp:85-114 | multiplication by x moves from a factor to the product, through the reduction by the field polynomial |
| `Linear.ApplyInverse` | core/ErasureCodec.cpp:237-258 | coding with a matrix and then with what the inverter returned gives the columns back |
| `Linear.SolutionOfUnitRow` | core/ErasureCodec.cpp:276-286 | where a selected row is an identity row, the solution's component is the shard itself: why present rows need no recomputation |
| `ErasureCodec.FillDataShards` | core/ErasureCodec.cpp:52-76 | the buffers filled in place are the zero-padded pieces of the data |
| `ErasureCodec.DataShardIsChunk` | core/ErasureCodec.cpp:60-83 | shard i < k of the code word is the i-th piece of the data unchanged |
| `ErasureCodec.FlattenChunks` | core/ErasureCodec.cpp:332-345 | the pieces put end to end are the data followed by zeros |
| `ErasureCodec.ChunksAndParity` | core/ErasureCodec.cpp:52-116 | copied data shards followed by the coded parity shards are generator rows times data at every index, so copying and coding agree |
| `ErasureCodec.CodeShardBytes` | core/ErasureCodec.cpp:82-114 | byte p of shard i, data or parity, is generator row i times byte p of the k pieces |
| `ErasureCodec.Encode` | core/ErasureCodec.cpp:13-117 | each input error exactly in its case, in the source's order; otherwise k + m shards, shard i with index i, whose every byte is row i of the library's generator times the column of the zero-padded data, and for i < k the data byte itself |
| `ErasureDecode.ShardErrorMeaning` | core/ErasureCodec.cpp:170-178 | no error is reported exactly when every shard, duplicates included, has an index below k + m and the right size |
| `ErasureDecode.ShardErrorIsFirst` | core/ErasureCodec.cpp:170-178 | the error reported is that of the first shard in the list that is bad, its index checked before its size |
| `ErasureDecode.Collect` | core/ErasureCodec.cpp:163-184 | the de-duplication pass keeps the first copy of every index and reports the first bad shard |
| `ErasureDecode.Select` | core/ErasureCodec.cpp:211-231 | the two selection loops give the first k present indices, data shards before parity shards |
| `ErasureDecode.SelectedMeaning` | core/ErasureCodec.cpp:211-231 | every selected shard is present, and every present data shard is selected |
| `ErasureDecode.PresentRowRecovered` | core/ErasureCodec.cpp:269-286 | reusing a present data shard gives what recomputing it would, for any shards at all |
| `ErasureDecode.Reconstruct` | core/ErasureCodec.cpp:269-330 | recomputing only the missing rows gives the full product of inverse and available shards |
| `ErasureDecode.RecoverRows` | core/ErasureCodec.cpp:186-330 | fast path, selection, inversion and partial recomputation together refine the simple form |
| `ErasureDecode.Decode` | core/ErasureCodec.cpp:119-346 | equal to the simple form on every input, errors included |
| `ErasureDecode.RecoveredChunks` | core/ErasureCodec.cpp:233-330 | shards of a code word, multiplied by the inverse of their own rows, are the pieces of the data |
| `ErasureDecode.DataRowsOutcome` | core/ErasureCodec.cpp:186-258 | success exactly when all data shards are present or the rows can be inverted; with fewer than k distinct indices, always the error for that |
| `ErasureDecode.RoundTrip` | core/ErasureCodec.cpp:119-346 | shards of an encoding, in any order with any repetition, decode to the data if and only if recoverable; with k distinct indices the only error is a failed inversion, with fewer there is always an error |
| `ErasureDecode.DecodesWhenInvertible` | core/ErasureCodec.cpp:186-345 | said of the library: for the k least indices present, shards of an encoding decode to the data, cut or padded to the size asked for, if and only if the library inverts those rows of its generator or all data shards are there; the inversion error occurs exactly when neither holds |
| `ErasureDecode.DecodeInputErrors` | core/ErasureCodec.cpp:126-161 | each error of the specification and the sizes occurs exactly in its case, in the source's order, before any shard is looked at |
| `ErasureDecode.DecodeShardErrors` | core/ErasureCodec.cpp:170-258 | for any shards: the first bad one decides, by index and then by size; without one, fewer than k distinct indices is always that error, and with k the only error is the inversion |
| `ErasureDecode.EncodeThenDecode` | core/ErasureCodec.cpp:13-346 | decoding any selection with k distinct indices from what encoding returned gives the data or the inversion error |
| `Rendezvous.PickBest` | core/ShardTransport.cpp:412-433 | the best-so-far scan finds the free node that beats all other free ones, by weight and then by address |
| `Rendezvous.HrwIntendedNodes` | core/ShardTransport.cpp:394-438 | fails exactly when there are fewer nodes than targets; otherwise each shard gets the best node its predecessors left |
| `Rendezvous.PlacementByWeight` | core/ShardTransport.cpp:411-437 | a list is a placement if and only if each shard is on a node no earlier shard has, no free node has a greater weight for it, and none of equal weight a lesser address |
| `Rendezvous.PrecedesIsLexicographic` | core/ShardTransport.cpp:425-430 | one address is less than another if and only if it is smaller at the first difference or a proper prefix |
| `Rendezvous.PlacementInjective` | core/ShardTransport.cpp:411-437 | a placement uses distinct nodes of the list |
| `Rendezvous.PlacementUnique` | core/ShardTransport.cpp:411-437 | the placement depends on the node set only, even when weights collide, and a shorter placement is a prefix of a longer one |
| `Rendezvous.DisplacementChain` | core/ShardTransport.cpp:411-437 | greedy placement with and without a node differ, at every shard, by one free node that only moves when it is chosen |
| `Rendezvous.SingleDisplacement` | core/ShardTransport.cpp:394-438 | dropping an unused node changes nothing; dropping a used one shifts each changed shard to the next changed shard's node, the last to one new node, and leaves earlier shards alone |
| `Rendezvous.OnlyLostShardMoves` | core/ShardTransport.cpp:394-438 | dropping the node of a shard moves that shard alone if and only if the best of the nodes then free for it holds no other shard; the condition speaks of the placement before |
| `Rendezvous.OtherShardMovesToo` | core/ShardTransport.cpp:411-437 | three nodes and two shards: dropping the first shard's node moves the second as well, which that node would not have won |
| `RepairTargets.BuildPool` | core/StorageClient.cpp:784-798 | the pool lists the healthy nodes without a surviving shard, then those with one |
| `RepairTargets.ChooseTarget` | core/StorageClient.cpp:807-833 | the intended node if healthy and free, else the first free node of the pool; the moving cursor never passes a free node |
| `RepairTargets.AssignTargets` | core/StorageClient.cpp:784-837 | fails exactly when more shards are missing than nodes are healthy; otherwise each gets its intended node if that is healthy and not taken, else the first healthy node in list order without a survivor that is not taken, and if there is none the first that is not taken |
| `RepairTargets.AssignmentMeaning` | core/StorageClient.cpp:784-837 | the choice from the pool said of the list of healthy nodes, without the pool |
| `RepairTargets.TargetsDistinct` | core/StorageClient.cpp:800-837 | the targets are pairwise distinct healthy nodes |
| `RepairTargets.RoomKeepsApart` | core/StorageClient.cpp:774-837 | enough unused healthy nodes, and no healthy intended node occupied, keep restored shards off survivors' nodes |
| `RepairTargets.ApartExactlyWhenRoom` | core/StorageClient.cpp:774-837 | restored shards avoid survivors' nodes if and only if that condition holds |
| `RepairTargets.MayColocateBesideFreeNode` | core/StorageClient.cpp:811-816 | a concrete repair that co-locates although a healthy unused node exists |
| `RepairTargets.FaultIndependence` | core/StorageClient.cpp:761-837 | with survivors on their intended nodes and room for the rest, all k + m shards end up on distinct nodes |
| `ShardKeys.StoulDecimal` | core/ShardTransport.cpp:52-92 | reading a printed index gives the index, for every unsigned 64-bit number |
| `ShardKeys.StoulOfParts` | core/ShardTransport.cpp:80-89 | which texts are read as a number, and as which: white space, one sign, digits, and anything after; no digit or more than 64 bits fails, a minus negates modulo 2^64 |
| `ShardKeys.MadeExactly` | core/ShardTransport.cpp:52-62 | making a key fails exactly for an empty part or a slash, in this order, and otherwise joins the parts |
| `ShardKeys.ParsedExactly` | core/ShardTransport.cpp:64-92 | a text is a key if and only if it has exactly two slashes, no empty part, and a last part that reads as a 32-bit number; which error otherwise |
| `ShardKeys.KeyRoundTrip` | core/ShardTransport.cpp:52-92 | parsing inverts making, for slash-free non-empty parts and every 32-bit index |
| `ShardKeys.KeyTextInjective` | core/ShardTransport.cpp:52-62 | different keys have different text |
| `ShardKeys.LocationRoundTrip` | core/ShardTransport.cpp:52-192 | a location splits back into its node and a key that parses to what was written |
| `Placement.PlacementStrategy` | core/ShardTransport.cpp:94-122 | every shard's payload is written to node i under key i and nothing else is, grouped by node in index order; errors as in the source |
| `Placement.BuildShardLocations` | core/ShardTransport.cpp:156-172 | for any placement and any order of its map: fails exactly when a key does not parse or names an index beyond the list, with that key's error; otherwise each named position holds an entry that names it and the others are empty |
| `Placement.BuiltFromPlacement` | core/ShardTransport.cpp:94-172 | for the placement of an object's shards the list holds node i and key i at position i |
| `Placement.PlacementFits` | core/ShardTransport.cpp:94-172 | and building it cannot fail |
| `Placement.ParseShardLocations` | core/ShardTransport.cpp:174-192 | fails exactly on a location without a slash; otherwise each node's keys in list order |
| `Placement.LocationsRoundTrip` | core/ShardTransport.cpp:94-192 | parsing the location list of a placement gives each node's keys back in index order |
| `KeyRing.RecoverDek` | core/StorageClient.cpp:126-168 | trying the hinted key and then all others finds the DEK whenever its key is in the ring, for any hint and any order |
| `KeyRing.Keys.Rotate` | core/StorageClient.cpp:519-538 | a fresh id is drawn, becomes active, and the ring only grows |
| `KeyRing.Keys.Wrap` | core/StorageClient.cpp:309-313 | a put wraps under the active key, records its id, and the ring recovers the DEK |
| `KeyRing.RecoveredForever` | core/StorageClient.cpp:126-168 | a DEK wrapped at any time is recovered after any number of later rotations |
| `MetadataStore.Store.Put` | core/MetadataStore.cpp:89-152 | accepted if and only if id and checksum are not empty, no location is empty and the size is below 2^63, each error exactly in its case; then version 1 or one more, all columns and all locations replaced, nothing else touched; unchanged on an error |
| `MetadataStore.Store.ConditionalPut` | core/MetadataStore.cpp:223-281 | accepted if and only if id and checksum are not empty, no location is empty and the size is below 2^63, each error exactly in its case; then the same replacement, at the expected version plus one, if and only if the row has the expected version |
| `MetadataStore.Store.InsertIfAbsent` | core/MetadataStore.cpp:283-345 | accepted if and only if id and checksum are not empty, no location is empty and the size is below 2^63, each error exactly in its case; then a row at version 1 where there was none, and no change otherwise |
| `MetadataStore.Store.Remove` | core/MetadataStore.cpp:175-191 | the row goes and, by the cascade, exactly its locations |
| `MetadataStore.Store.Get` | core/MetadataStore.cpp:154-173 | the row with its locations in index order |
| `MetadataStore.GroupedJoin` | core/MetadataStore.cpp:193-221 | grouping the ordered left join by adjacent ids in one pass gives what a get on each id gives, objects without locations included |
| `MetadataStore.Store.List` | core/MetadataStore.cpp:193-221 | the listing method, over any store its operations can build, returns each id in order with its whole row |
| `Shards.DecryptShards` | core/Crypto.cpp:171-214 | best effort: exactly the shards that open, in order |
| `Shards.OpensWhatWasSealed` | core/Crypto.cpp:171-214 | an index opens if and only if some shard with it was sealed under the DEK for that index; shards so sealed all open, in order, with their bytes |
| `Shards.ReadReturnsThePut` | core/StorageClient.cpp:422-466 | from genuine shards a read returns the put's data or an error that is not a checksum mismatch; with k distinct ones only an inversion can fail |
| `Shards.ReadExactly` | core/StorageClient.cpp:422-466 | said of the library: with k distinct shards of a put that open, a read returns its data if and only if all data shards are among them or the generator rows of the k least can be inverted, and the inversion error otherwise |
| `Shards.ReadTooFew` | core/StorageClient.cpp:422-461 | with fewer than k distinct shards that open, a read always fails, with the error of the stage that notices |
| `Shards.ReadChecks` | core/StorageClient.cpp:422-466 | for any metadata and any shards, each error of a read occurs exactly in its case, and what is returned has the size and the checksum that the row records |
| `History.FetchedGenuine` | core/StorageClient.cpp:422-450 | shards of another put do not open under this row's DEK |
| `History.ReadIsSafe` | core/StorageClient.cpp:394-488 | metadata of one put with locations of any other: the first put's bytes or an error, never a checksum mismatch, and bytes only if both are the same put |
| `Invariant.ReencodedIsOriginal` | core/StorageClient.cpp:718-743 | re-encoding what repair decoded gives, for every missing index, the very shard the put wrote |
| `Invariant.StepKeepsInvariant` | core/StorageClient.cpp:219-1309 | every step of every operation, rotation, loss and damage keeps: each stored shard is its version's own, each row's metadata is one put's, its locations one put's in index order |
| `Invariant.RunKeepsInvariant` | core/StorageClient.cpp:219-1309 | so does every run |
| `Invariant.GetReturnsOnePut` | core/StorageClient.cpp:394-488 | in every run a finished get returned the bytes of the one put whose metadata it read, or an error; the checksum test never fires |
| `Invariant.RepairDecodesThePut` | core/StorageClient.cpp:683-728 | in every run a repair decodes the put that its row and its locations both name |
| `Invariant.MixedShardsReadBack` | core/StorageClient.cpp:718-904 | original, moved and repaired shards of one version, in any mixture with k distinct indices, read back as its put unless the inversion fails |
| `Invariant.KeysStayRecoverable` | core/StorageClient.cpp:126-168 | in every run the active key is in the ring and every row's and manifest's DEK is recovered, its key id still in the ring |
| `Fence.StepEvolves` | core/MetadataStore.cpp:391-568 | every step leaves each row, raises its version by one, or removes it and is the remove |
| `Fence.RunKeepsFence` | core/MetadataStore.cpp:154-281 | in every run, what an operation read still holds of the row while its version is the one read and it was not removed |
| `Fence.CommitOverRowAsRead` | core/MetadataStore.cpp:223-281 | without a remove since the read, a repair or rebalance commits if and only if the whole row is as it was read |
| `Fence.VersionsGrow` | core/MetadataStore.cpp:391-568 | between any two moments without a remove the version never falls, and stays only if the row stays |
| `Fence.CommitRaisesVersion` | core/MetadataStore.cpp:223-281 | a successful commit raises the version by one and keeps size, checksum, specification and DEK |
| `Fence.AtMostOneCommits` | core/StorageClient.cpp:906-917 | of all repairs and rebalances that read one version at most one commits, unless the object was removed in between |
| `CatalogChanges.StepActs` | core/MetadataStore.cpp:391-568 | what every step does to the catalog is one upsert, one fenced update, one insert-if-absent, one delete, or nothing |
| `CatalogChanges.StepIsRowLocal` | core/MetadataStore.cpp:391-568 | in two worlds with the same operations a step makes the same of a row that is the same, whatever the other rows |
| `CatalogChanges.VersionsStartAtOne` | core/MetadataStore.cpp:391-447 | in every run every row has a positive version |
| `FenceLimits.PutsCanFollow` | core/StorageClient.cpp:219-365 | in any world any number of puts of any object, with any data that fits and any nodes, can follow each other, so the runs below exist |
| `FenceLimits.StaleCommitAfterRemove` | core/MetadataStore.cpp:404-420 | from any world with a repair or rebalance about to commit over version v, the run of a remove and v puts after which the commit still goes through and replaces the last put's row |
| `FenceLimits.TornRead` | core/MetadataStore.cpp:154-173 | from any world and row, the run in which a rebalance holds that row's metadata with another put's locations at a version that its commit will find |
| `FenceLimits.ReadAcrossRemove` | core/MetadataStore.cpp:154-173 | from any world with a row, the run of a remove between the two SELECTs: the reading has the row's columns and no location, and no get, repair or rebalance can do anything with it |
| `RowUnity.TornReadMixes` | core/StorageClient.cpp:1123-1301 | from any reachable world and any row, the run in which a remove and puts fall between the two SELECTs and a rebalance stores a row of two puts |
| `RowUnity.EveryRowCanBeMixed` | core/StorageClient.cpp:1123-1301 | the same for every row of every world that a run reaches, with the puts it needs shown to exist |
| `RowUnity.MixedExactlyByStaleMove` | core/StorageClient.cpp:1281-1301 | a step leaves a row of two puts if and only if it is a rebalance's successful commit over such a reading |
| `RowUnity.RowsComeFromOnePut` | core/StorageClient.cpp:219-1309 | in every run without a rebalance commit over a row removed since it was read, each row's size, checksum, specification, DEK and locations come from one put |
| `RowUnity.MixesExactlyWhenSelectsDiffer` | core/StorageClient.cpp:1133-1301 | the first commit of a run that stores a row of two puts is exactly one whose two SELECTs returned locations of different versions |
| `Durability.StepKeepsAnchored` | core/StorageClient.cpp:1257-1301 | every step but loss and deletion keeps all committed rows' shards, and what operations have written so far, in place |
| `Durability.CommittedShardsPresent` | core/StorageClient.cpp:1257-1301 | copy before commit: in every run without loss or deletion, at every step, each location of each row is present unless it is a rebuild's placeholder |
| `RebalanceRuns.RebalanceLeavesCatalog` | core/StorageClient.cpp:1123-1309 | one rebalance in any run: aborted, fenced off or unfinished, the catalog is exactly what the other operations make of it; committed, it differs by one row at its next version with the planned locations replaced |
| `RebalanceRuns.RebalanceOnlyWritesCopies` | core/StorageClient.cpp:1257-1285 | at no step of a rebalance does a shard disappear, and none changes except where it writes one of its copies |
| `RebalanceRuns.IntactUnlessDamagedCopy` | core/StorageNode.cpp:97-128 | a write of a rebalance leaves every undamaged shard as it is if and only if its copy is undamaged or no undamaged shard is where it goes |
| `RebalanceRuns.DamagedCopyOverwrites` | core/StorageClient.cpp:1257-1285 | from any world with a full row and an undamaged first shard, the run in which only another copy is damaged and a rebalance replaces the undamaged shard by it |
| `RepairRuns.MissingAreTheFailedProbes` | core/StorageClient.cpp:635-744 | in every run, whatever else runs, a repair holds as missing exactly the positions whose probe failed; it goes on only when all have been probed, some failed and at least k did not; it asks for none that failed, and restores exactly those |
| `RepairRuns.RepairReplacesTheFailed` | core/StorageClient.cpp:635-917 | in every run, a repair that commits leaves the row it read at its next version, with the locations whose probe failed at the targets it wrote to, the others as read, and no other row changed |
| `CommittedReads.CommittedRowReadsBack` | core/StorageClient.cpp:394-488 | end to end, in every such run: fetching what a committed row names, undamaged, returns its put's bytes outright, no inversion involved |
| `CommittedReads.DataShardsReadBack` | core/StorageClient.cpp:422-466 | a read that gets all data shards of a put, and any that follow, returns its data and cannot fail |
| `Runs.PutRun` | core/StorageClient.cpp:219-365 | from any world, for any fitting data and any nodes, the run of a put, and exactly the world it leaves: all shards at their locations, and the row that names them |
| `PutThenGet.PutThenGetReturnsData` | core/StorageClient.cpp:219-488 | from any world there is a run in which a put completes and a get then returns exactly the data, so the theorems over runs are not about an empty set |
| `RepairRuns.RestoreRun` | core/StorageClient.cpp:613-744 | from any world with a put of which some shards are lost and the others can be decoded, the run of a repair that probes all, fetches the survivors, decodes and restores exactly the lost shards |
| `RepairRuns.RepairRun` | core/StorageClient.cpp:613-917 | and its writes and its commit, for any targets: the row is at its next version, the lost locations at their targets, the others as they were; the put's own shard is present at every one of them, and those written carry the version's manifest |
| `MoveRuns.RebalanceRun` | core/StorageClient.cpp:1239-1301 | from any world with a put's row, for any shards that are there and any targets, the run of a rebalance: the row is at its next version with exactly those locations at their targets under the keys they had, the shards there are those that were read, and no shard disappears |
| `MoveRuns.RemoveAllRun` | core/StorageClient.cpp:490-513 | from any world with a row, the run of a remove that reaches every node: the row and exactly the shards at its locations are gone |
| `MoveRuns.DegradedGetRun` | core/StorageClient.cpp:394-488 | from any world with a put's row of which any shards are missing, the run of a get: it returns the data if and only if no data shard is missing or the library can invert the generator rows of the k least shards that are there, the inversion error otherwise, and with fewer than k there the error for that |
| `MoveRuns.RotationKeepsData` | core/StorageClient.cpp:219-538 | the run of a put, a rotation and a get, which returns the data although another key is active; a put that begins afterwards is under the new key |
| `ReindexRuns.ReindexRun` | core/StorageClient.cpp:930-1121 | from any world, over any nodes that answer and any manifests that do not come, the run of a reindex, key by key, manifest by manifest and row by row: its catalog is the one that a pass leaves, so the results on passes hold of the steps |
| `Reindex.BetterIsOrder` | core/StorageClient.cpp:1043-1063 | the selection policy is a strict weak order |
| `Reindex.WinnersAreBest` | core/StorageClient.cpp:1005-1068 | for every order of the groups each object gets a candidate that no other of its candidates beats |
| `Reindex.WinnerOrderIndependent` | core/StorageClient.cpp:1005-1068 | the same winner for every order, where the policy leaves no tie |
| `Reindex.WinnerRecoverable` | core/StorageClient.cpp:1043-1067 | if some version has k shards the winner has, and none that has is newer |
| `Reindex.WinnerMostShards` | core/StorageClient.cpp:1043-1067 | if no version has k shards the winner has the most, and is the newest of those that have as many |
| `Rebuild.ScanNodes` | core/StorageClient.cpp:933-980 | for any order of each node's listing the groups hold exactly the shards on the registered nodes that answer; a shard found on several nodes counts as on the last of them, and the manifest is read from the first node with any shard of the version |
| `Rebuild.ChooseWinners` | core/StorageClient.cpp:984-1068 | each winner is a usable group of its object and none of the object's other usable groups is better; every object with a usable group has one; unreadable is the number of groups whose manifest does not come, or has k or m or the shard size zero, or k + m above 255 |
| `Rebuild.InsertWinners` | core/StorageClient.cpp:1070-1118 | rows already there stay; a winner without one gets it if and only if the store takes it, at version 1, with the locations found and the unknown address for the others; recovered, degraded, existing and failed counts are the sizes of those sets |
| `Rebuild.ReindexPass` | core/StorageClient.cpp:930-1121 | one pass is scan, choice and insertion; rows already present are unchanged, the catalog grows by exactly the recovered count, and the other counts are the sizes of their sets |
| `Rebuild.DegradedAsDocumented` | core/StorageClient.cpp:1114-1117 | the reported degraded count is the documented one if and only if no recovered object has at least k shards without having all |
| `RebuildResults.EveryStoredObjectHasRow` | core/StorageClient.cpp:930-1121 | every object with a shard on a node that answers, whose manifest comes, has a row afterwards; rows already present are unchanged, and no other row appears |
| `RebuildResults.SecondPassInsertsNothing` | core/StorageClient.cpp:930-1121 | a second pass that gets no shard or manifest that the first did not get changes nothing, in any order |
| `RebuildResults.RebuiltRowReadsBack` | core/StorageClient.cpp:1005-1099 | a new row of an object with some version of k distinct undamaged shards reads back as one of the object's puts unless the inversion fails |
| `RebuildResults.RebuildAfterAnyRun` | core/StorageClient.cpp:930-1121 | both, from the world after any run with the catalog dropped, whatever nodes and manifests fail to answer |
| `RebuildResults.RebuiltIsVersion` | core/StorageClient.cpp:1005-1111 | a new row is of a given version only if no version of the object is better; where the policy leaves no tie, if and only if |
| `PassChoice.ComesBackExactlyWhenUndone` | core/StorageClient.cpp:935-1111 | some pass over the nodes makes a row of a reconstructable version if and only if one of its shards there has a stamp that no other reconstructable version of the object exceeds with all of its shards |
| `PassChoice.OlderOfTwoComesBack` | core/StorageClient.cpp:1043-1067 | of two reconstructable versions the older may come back if and only if one of its shards was stamped at or after one of the newer's |
| `RebuildRuns.UncommittedPutComesBack` | core/StorageClient.cpp:930-1121 | the run after which the row names one put and every rebuild from all nodes makes a row of a later one that never committed |
| `RebuildRuns.OlderPutComesBack` | core/StorageClient.cpp:1043-1067 | the run after which the row names one put and every rebuild makes a row of an earlier one with a later stamp |
| `RebuildRuns.RemovedPutComesBack` | core/StorageClient.cpp:490-513 | the run after which there is no row and every rebuild makes one again |
| `RebuildRuns.DegradedWithEnoughShards` | core/StorageClient.cpp:1114-1117 | the run after which every report counts as degraded an object recovered with k shards or more |
| `Stamps.RunKeepsStamps` | core/StorageClient.cpp:864-874 | in every run, if the stamps that puts and repairs give a version obey a bound, so do the stamps of its stored shards |
| `Stamps.OverwrittenStaysOverwritten` | core/StorageClient.cpp:1043-1067 | in every run in which each stamp the older version is given precedes the newer put's and no repair of the newer goes back before it, a rebuild that finds the newer reconstructable never makes a row of the older |
| `LateRepair.OverwrittenPutComesBack` | core/StorageClient.cpp:864-917 | from any reachable world, the run of a fenced-off repair after which both versions are reconstructable, the row names the newer, and a rebuild makes a row of the older |
| `Rebalance.PlanMoves` | core/StorageClient.cpp:1207-1234 | the plan ascends, holds only misplaced shards whose intended node is healthy, at most max_moves of them, and leaves one out only if it is full and the one left out comes after all of it; the misplaced count is the size of that set |
| `Rebalance.MovesLowerMisplaced` | core/StorageClient.cpp:1281-1285 | moving distinct misplaced shards lowers the misplaced count by exactly their number and touches no other index |
| `Rebalance.RebalanceObject` | core/StorageClient.cpp:1123-1309 | which gate gives which status and counts, from the row's text locations; only a Moved result changes locations, and then exactly those of the planned shards that could be read, at most max_moves |
| `Rebalance.MovedToNodes` | core/StorageClient.cpp:1281-1285 | the updated locations name the intended nodes of the moved shards, all other nodes as before, and every key as before |
| `Rebalance.HealthyMoveIsPass` | core/StorageClient.cpp:1207-1285 | with intended nodes healthy and sources readable, what RebalanceObject moves is one pass |
| `Rebalance.PassProgress` | core/StorageClient.cpp:1207-1285 | a pass lowers the misplaced count by the bound, or to zero |
| `Rebalance.RebalanceConverges` | core/StorageClient.cpp:1197-1308 | repeated passes end with every shard on its intended, pairwise distinct node, and then nothing moves |
| `Rebalance.RebalanceOnce` | core/StorageClient.cpp:1123-1309 | one call when all goes well: Balanced if and only if the row is on its intended nodes, and otherwise one pass that leaves fewer shards misplaced |
| `Rebalance.RebalanceUntilBalanced` | core/StorageClient.cpp:1123-1309 | calling rebalance_object while all goes well ends Balanced after no more moving calls than there were misplaced shards, with every location at its intended, pairwise distinct node and under the key it had |
| `Rebalance.ScannedIsSum` | core/StorageClient.cpp:1323-1384 | the scanned count is the sum of the outcome counters and the dry runs |
| `Rebalance.CountOfPositions` | core/StorageClient.cpp:1341-1380 | each counter is the number of positions in the results with its status |
| `Rebalance.RebalanceAll` | core/StorageClient.cpp:1311-1385 | over the named ids or, when none are named, the whole catalog: the i-th result is what the i-th object comes to under the limit it is given, or an error for an exception; with a positive scope limit that limit is the scope's minus what the objects before have moved, otherwise 0; counters match results; moves and scanned objects stay within positive limits; it stops early only at a limit |

## Left out

- Put: a list of more than 2^31 locations, which put and insert_if_absent refuse
  and conditional_put numbers with a cast, is not modelled; a row has at most
  255. A specification never serializes to nothing.
- Encode: sums k + m over unbounded integers, where the source adds two 32-bit
  numbers and could wrap; the checks for an overflow of size_t, which the
  earlier checks make unreachable, are not modelled.
- Decode: the same holds of its checks; shard payload sizes are unbounded.
- RebalanceObject: probes, reads, the write and the commit are answers given as
  parameters, and detail strings are not modelled. Its steps against a changing
  world are in `Protocol`.
- RebalanceUntilBalanced: the loop around the calls is the caller's, an operator
  or a scheduler; the source has no such loop of its own.
- ReindexPass: nothing else runs, and keys that do not parse are not listed. A
  scan that interleaves with other operations, key by key, is in `Protocol`, and
  the invariants of runs cover it.
- ScanNodes: the same holds of keys that do not parse, which the source skips.
- RebuildAfterAnyRun: the checksum is assumed never to be the empty text, which
  holds of a printed hash. The same holds of the other results on rebuilds.
- The bodies of put, get, remove and repair appear as steps in `Protocol`, not as
  sequential methods; their pure parts (encoding, placement, target choice,
  decryption, decoding, key recovery, transactions) are methods and functions.
- Locations in `Protocol` are a node and a structured key; the text form is
  proved to round trip in `ShardKeys` and `Placement`. Keys on nodes that do not
  parse, or that spell an index with leading zeros, do not occur in a world.
- Damage to a stored shard affects its ciphertext. A corrupted manifest, which
  nothing authenticates, and shards in the older bare format are not modelled.
- Repair's fallback to a new version token, for rows with no parsable location,
  cannot be reached from the rows the model's operations write.
- The hash behind the weights is arbitrary; its start constant
  (core/ShardTransport.cpp:372) is not the published FNV-1a one, and nothing is
  claimed of it.
- ISA-L's tables and internals; AES-GCM, ML-KEM and SHA-256: contracts only.
- The key file, the restart of a client, and other processes' key rings.
- The width of the version column, the conversion of ids to UUID, the connection
  pool, node registration and the health report.
- HTTP, JSON, msgpack, LMDB, threads, timeouts and metrics.
