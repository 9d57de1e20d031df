# ObservedBlobSidecars in Dafny

A model of Lighthouse's `ObservedBlobSidecars`, the beacon node's cache of
blob sidecars already seen on gossip. The cache holds a finalized slot and a
map from `(block_root, slot)` to the set of blob indices observed for that
block. `observe_sidecar` records a sidecar and reports whether it was a
duplicate, `is_known` asks the same question without recording, and `prune`
moves the finality mark and drops every entry at or before it. Both queries
first validate the sidecar: an index at or beyond `max_blobs_per_block` is
refused, and so is a slot at or before a non-zero finalized slot.

Files:

- `types.dfy` (module `Types`): `u64` slots and indices, 32-byte roots, the
  three sidecar fields the cache reads, the `Error` enum and `Result`.
- `cache_model.dfy` (module `CacheModel`): the cache state as a value
  (`Cache`) and each operation as a function of it, the invariant `Valid`,
  and lemmas about single calls and about any sequence of calls (`Op`,
  `Run`).
- `observed_blob_sidecars.dfy` (module `BlobSidecarCache`): the class
  `ObservedBlobSidecars`, whose fields `finalizedSlot` and `items` are
  updated in place; each method is proved to move `State()` exactly as
  the matching `CacheModel` function does and to keep `Valid()`.
- `scenarios.dfy` (module `Scenarios`): the unit tests `simple_observations`
  and `pruning`, replayed against the class, with their expected results as
  postconditions.

`max_blobs_per_block`, a generic `EthSpec` constant in the source, is a
constructor argument kept in a `const` field. The `usize` to `u64` cast in
the index check is lossless on the 64-bit targets the node runs on, so the
comparison is done on mathematical integers. Nothing here overflows: the
cache only compares slots and indices.

The invariant `Valid` holds of every reachable cache: every stored index is
below the maximum, and once the finalized slot is non-zero every stored slot
is strictly after it. The second half holds even though `prune` does not
check that the new finalized slot is at least the old one, because `prune`
always drops every entry at or before the slot it is given.

A prune to a non-zero slot below the current finalized slot is accepted and
lowers it, so the finalized slot is non-decreasing only when callers pass
non-decreasing non-zero slots (a prune at 0 is ignored, so zeros in between
do no harm). What the code does keep is that once the finalized slot is
non-zero it never returns to 0 (`CacheModel.FinalityStaysKnown`). `CacheModel.Prune` states this behaviour as the code
has it rather than a monotonic one.

## Model

| member | source | states |
|---|---|---|
| `CacheModel.Default` | beacon_node/beacon_chain/src/observed_blob_sidecars.rs:37-46 | a new cache has finalized slot 0, no entries, knows no sidecar, and satisfies the invariant |
| `CacheModel.Sanitize` | beacon_node/beacon_chain/src/observed_blob_sidecars.rs:75-88 | an index at or above the maximum is refused with `InvalidBlobIndex(index)` before anything else; otherwise a slot at or below a non-zero finalized slot is refused with `FinalizedBlob{slot, finalized_slot}`; the sidecar passes exactly when neither holds, so slot 0 passes while the finalized slot is 0 |
| `CacheModel.IsKnown` | beacon_node/beacon_chain/src/observed_blob_sidecars.rs:66-73 | validation errors propagate unchanged; on a valid sidecar the answer is `true` exactly when its key is present and its set holds its index, and `false` for an absent key |
| `CacheModel.Insert` | beacon_node/beacon_chain/src/observed_blob_sidecars.rs:56-60 | the key set grows by the sidecar's key, its index set becomes the old set (empty for a new key) plus the index, and every other key keeps its set |
| `CacheModel.InsertSizes` | beacon_node/beacon_chain/src/observed_blob_sidecars.rs:56-60 | the number of keys grows by one only for a new key, and a key's set grows by one only for a new index (the `len()` checks of the tests) |
| `CacheModel.Observe` | beacon_node/beacon_chain/src/observed_blob_sidecars.rs:53-63 | a refused sidecar leaves the whole state unchanged and returns the validation error; an accepted one returns `true` exactly when the triple was already recorded (the same answer `is_known` gives beforehand), records the index under its key, leaves every other key and the finalized slot alone, and keeps the invariant |
| `CacheModel.Retain` | beacon_node/beacon_chain/src/observed_blob_sidecars.rs:97 | exactly the entries whose slot is strictly after the given slot are kept, with their sets unchanged |
| `CacheModel.Prune` | beacon_node/beacon_chain/src/observed_blob_sidecars.rs:91-98 | a prune at 0 changes nothing; any other slot becomes the finalized slot without a monotonicity check, an entry survives exactly when its slot is after it, survivors keep their sets, and the invariant is kept |
| `CacheModel.PruneRejectsFinalized` | beacon_node/beacon_chain/src/observed_blob_sidecars.rs:79-98 | after a prune at a non-zero slot, a sidecar with a valid index at that slot or earlier is refused by both queries with `FinalizedBlob{slot, n}` and observing it changes nothing |
| `CacheModel.ObserveTwice` | beacon_node/beacon_chain/src/observed_blob_sidecars.rs:53-63 | after an accepted observation the same triple is known, and observing it again returns `true` and leaves the state as it is |
| `CacheModel.ObserveIndependent` | beacon_node/beacon_chain/src/observed_blob_sidecars.rs:56-60 | observing one triple does not change what either query says about any other triple (another index of the same block, or another root or slot) |
| `CacheModel.RunPreservesValid` | beacon_node/beacon_chain/src/observed_blob_sidecars.rs:53-98 | any sequence of observations and prunes keeps the invariant and the maximum |
| `CacheModel.ReachableValid` | beacon_node/beacon_chain/src/observed_blob_sidecars.rs:37-98 | every cache reached from `default` by observations and prunes has only indices below the maximum and, once finality is known, only slots after it |
| `CacheModel.FinalityStaysKnown` | beacon_node/beacon_chain/src/observed_blob_sidecars.rs:91-97 | once the finalized slot is non-zero, no sequence of observations and prunes brings it back to 0 |
| `CacheModel.RunOnlyObserved` | beacon_node/beacon_chain/src/observed_blob_sidecars.rs:53-98 | a recorded `(root, slot, index)` was present at the start or was passed to an observation in the sequence: the cache has no other way to gain entries |
| `CacheModel.KnownSurvives` | beacon_node/beacon_chain/src/observed_blob_sidecars.rs:56-97 | a recorded, still valid sidecar stays recorded and valid through any observations and through any prunes at 0 or below its slot |
| `CacheModel.DuplicateForever` | beacon_node/beacon_chain/src/observed_blob_sidecars.rs:53-63 | once a sidecar is accepted, every later observation and query of it answers `true`, however many calls come between, as long as no prune reaches its slot |
| `BlobSidecarCache.ObservedBlobSidecars.constructor` | beacon_node/beacon_chain/src/observed_blob_sidecars.rs:37-46 | the new object has the given maximum, finalized slot 0 and no entries |
| `BlobSidecarCache.ObservedBlobSidecars.SanitizeBlobSidecar` | beacon_node/beacon_chain/src/observed_blob_sidecars.rs:75-88 | read-only; returns what `CacheModel.Sanitize` gives for the current state |
| `BlobSidecarCache.ObservedBlobSidecars.ObserveSidecar` | beacon_node/beacon_chain/src/observed_blob_sidecars.rs:53-63 | the new state and the result are those of `CacheModel.Observe` on the old state: on error nothing changes, on success the result is "already recorded" and the index is added under its key |
| `BlobSidecarCache.ObservedBlobSidecars.IsKnown` | beacon_node/beacon_chain/src/observed_blob_sidecars.rs:66-73 | read-only; returns what `CacheModel.IsKnown` gives for the current state |
| `BlobSidecarCache.ObservedBlobSidecars.Prune` | beacon_node/beacon_chain/src/observed_blob_sidecars.rs:91-98 | the new state is `CacheModel.Prune` of the old one: unchanged at 0, otherwise the finalized slot is the argument and only later entries remain |
| `Scenarios.FirstSighting` | beacon_node/beacon_chain/src/observed_blob_sidecars.rs:261-283 | on a new valid triple, query, observe, query and observe answer `false`, `false`, `true`, `true` and only the index is added |
| `Scenarios.SimpleObservations` | beacon_node/beacon_chain/src/observed_blob_sidecars.rs:253-388 | the test's three rounds each answer `false`, `false`, `true`, `true`; afterwards there are two keys, two indices in slot 0 and one in slot 1; an index equal to the maximum is refused with `InvalidBlobIndex` |
| `Scenarios.BeforeFinality` | beacon_node/beacon_chain/src/observed_blob_sidecars.rs:116-181 | a slot-0 sidecar is accepted as new; after it and after a prune at 0 the map is exactly `(rootA, 0) -> {0}` and the finalized slot stays 0; a prune at one epoch sets it and empties the cache |
| `Scenarios.AfterFinality` | beacon_node/beacon_chain/src/observed_blob_sidecars.rs:183-250 | a sidecar at the finalized slot is refused with `FinalizedBlob{epoch, epoch}` and adds nothing; one three epochs in is accepted, the map becomes exactly `(rootB, threeEpochs) -> {0}`, and after a prune at two epochs the map is still exactly that entry |
| `Scenarios.Pruning` | beacon_node/beacon_chain/src/observed_blob_sidecars.rs:116-251 | the `pruning` test: its three results, the finalized slots `0, 0, epoch, 2 epochs`, the entry counts `1, 1, 0, 0, 1, 1`, and the exact map (which key, which indices) at each point where the test reads an entry |

## Left out

- `Arc`, `PhantomData` and the `HashSet::with_capacity` pre-sizing: none affects what the cache stores or answers.
- The rest of `BlobSidecar` (blob, KZG commitment and proof, signed header): the cache reads only the root, slot and index.
- The caller's duty to pass only sidecars whose proposer signature was checked: signature verification is not part of this model.
- `Hash256::random()` in the tests: the random roots are parameters of the scenario methods, with no assumption that they differ.
- `Scenarios.Pruning`: the test's slots `slots_per_epoch`, `2 * slots_per_epoch` and `3 * slots_per_epoch` are generalised to any three increasing non-zero slots, and Mainnet's `max_blobs_per_block` to any maximum of at least one (two for `Scenarios.SimpleObservations`); the Mainnet values themselves are not fixed.
- The `u64` bound on `max_blobs_per_block as u64`: the maximum is an unbounded `nat`, which matches the cast on 64-bit targets.
- `beacon_node/http_api/tests/broadcast_validation_tests.rs`, `consensus/types/src/builder_bid.rs` and `consensus/types/src/sync_aggregator_selection_data.rs` are not part of this model: integration tests over HTTP and a full chain, and serialisation and signature types with no cache logic.
