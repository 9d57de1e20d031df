/** The unit tests `simple_observations` and `pruning` of
    `observed_blob_sidecars.rs`, replayed against the class. Random block
    roots become parameters, and the Mainnet constants become parameters
    with only the bounds the tests rely on. */
module Scenarios {
  import opened Types
  import CacheModel
  import opened BlobSidecarCache

  /** The pattern `simple_observations` repeats for each new sidecar:
      unknown, first observation, known, duplicate. Only the sidecar's
      index is added to the cache. */
  method FirstSighting(cache: ObservedBlobSidecars, s: BlobSidecar) returns (results: seq<Result<bool>>)
    requires cache.Valid() && CacheModel.Sanitize(cache.State(), s).Ok?
    requires !CacheModel.Contains(cache.items, s)
    modifies cache
    ensures cache.Valid() && cache.finalizedSlot == old(cache.finalizedSlot)
    ensures results == FirstSightingResults
    ensures cache.items == CacheModel.Insert(old(cache.items), CacheModel.KeyOf(s), s.index)
  {
    var r1 := cache.IsKnown(s);
    var r2 := cache.ObserveSidecar(s);
    ghost var afterFirst := cache.items;
    var r3 := cache.IsKnown(s);
    var r4 := cache.ObserveSidecar(s);
    assert afterFirst[CacheModel.KeyOf(s)] + {s.index} == afterFirst[CacheModel.KeyOf(s)];
    results := [r1, r2, r3, r4];
  }

  /** What `FirstSighting` reports: unknown, new, known, duplicate. */
  const FirstSightingResults: seq<Result<bool>> := [Ok(false), Ok(false), Ok(true), Ok(true)]

  /** `simple_observations`: a first sidecar, one in a new slot and a new
      index in the first slot each go through `FirstSighting`; then an
      index equal to the maximum is refused. */
  method SimpleObservations(maxBlobs: nat, rootA: Hash256, rootB: Hash256)
    returns (first: seq<Result<bool>>, second: seq<Result<bool>>, third: seq<Result<bool>>,
             outOfBounds: Result<bool>, final: CacheModel.Cache)
    requires 2 <= maxBlobs < 0x1_0000_0000_0000_0000
    ensures first == second == third == FirstSightingResults
    ensures outOfBounds == Err(InvalidBlobIndex(maxBlobs as U64))
    ensures final.finalizedSlot == 0 && |final.items| == 2
    ensures (rootA, 0) in final.items && |final.items[(rootA, 0)]| == 2
    ensures (rootB, 1) in final.items && |final.items[(rootB, 1)]| == 1
  {
    var cache := new ObservedBlobSidecars(maxBlobs);

    // slot 0, index 0
    first := FirstSighting(cache, BlobSidecar(rootA, 0, 0));
    assert cache.items == map[(rootA, 0) := {0}];

    // slot 1, index 0
    second := FirstSighting(cache, BlobSidecar(rootB, 1, 0));
    assert cache.items == map[(rootA, 0) := {0}, (rootB, 1) := {0}];

    // slot 0, index 1
    ghost var before := cache.items;
    third := FirstSighting(cache, BlobSidecar(rootA, 0, 1));
    assert cache.items == before[(rootA, 0) := {0} + {1}];
    assert {0} + {1} == {0, 1};

    // an index equal to the maximum
    outOfBounds := cache.ObserveSidecar(BlobSidecar(rootA, 0, maxBlobs as U64));
    final := cache.State();
  }

  /** The second half of `pruning`, on a cache just finalized at `epoch`
      and emptied: a sidecar at `epoch` is refused and adds nothing, one at
      `threeEpochs` is accepted, and a prune at `twoEpochs` keeps it.
      `afterObserve` is the map right after that observation. */
  method AfterFinality(cache: ObservedBlobSidecars, epoch: Slot, twoEpochs: Slot, threeEpochs: Slot,
                       rootB: Hash256, rootC: Hash256)
    returns (atFinalized: Result<bool>, afterFinalized: Result<bool>, itemCounts: seq<nat>,
             afterObserve: map<CacheModel.Key, set<U64>>)
    requires cache.Valid() && 1 <= cache.maxBlobsPerBlock
    requires cache.finalizedSlot == epoch && cache.items == map[]
    requires 0 < epoch < twoEpochs < threeEpochs
    modifies cache
    ensures atFinalized == Err(FinalizedBlob(epoch, epoch))
    ensures afterFinalized == Ok(false)
    ensures itemCounts == [0, 1, 1]
    ensures afterObserve == map[(rootB, threeEpochs) := {0}]
    ensures cache.finalizedSlot == twoEpochs
    ensures cache.items == map[(rootB, threeEpochs) := {0}]
  {
    // the first slot of the finalized epoch is refused
    atFinalized := cache.ObserveSidecar(BlobSidecar(rootC, epoch, 0));
    var n1 := |cache.items|;

    // three epochs in is accepted
    afterFinalized := cache.ObserveSidecar(BlobSidecar(rootB, threeEpochs, 0));
    assert cache.items == map[(rootB, threeEpochs) := {0}];
    afterObserve := cache.items;
    var n2 := |cache.items|;

    // a prune at two epochs keeps the later entry
    cache.Prune(twoEpochs);
    assert cache.items == map[(rootB, threeEpochs) := {0}];
    itemCounts := [n1, n2, |cache.items|];
  }

  /** The first half of `pruning`, on a new cache: a slot-0 sidecar is
      accepted, a prune at zero keeps it, a prune at `epoch` drops it.
      `afterObserve` and `afterPruneZero` are the map after the observation
      and after the prune at zero. */
  method BeforeFinality(cache: ObservedBlobSidecars, epoch: Slot, rootA: Hash256)
    returns (atGenesis: Result<bool>, finalizedSlots: seq<Slot>, itemCounts: seq<nat>,
             afterObserve: map<CacheModel.Key, set<U64>>, afterPruneZero: map<CacheModel.Key, set<U64>>)
    requires cache.Valid() && 1 <= cache.maxBlobsPerBlock
    requires cache.finalizedSlot == 0 && cache.items == map[]
    requires 0 < epoch
    modifies cache
    ensures cache.Valid() && cache.finalizedSlot == epoch && cache.items == map[]
    ensures atGenesis == Ok(false)
    ensures finalizedSlots == [0, 0, epoch]
    ensures itemCounts == [1, 1, 0]
    ensures afterObserve == afterPruneZero == map[(rootA, 0) := {0}]
  {
    atGenesis := cache.ObserveSidecar(BlobSidecar(rootA, 0, 0));
    assert CacheModel.Indices(map[], (rootA, 0)) + {0} == {0};
    assert cache.items == map[(rootA, 0) := {0}];
    afterObserve := cache.items;
    var f1, n1 := cache.finalizedSlot, |cache.items|;

    // a prune at the genesis slot does nothing
    cache.Prune(0);
    afterPruneZero := cache.items;
    var f2, n2 := cache.finalizedSlot, |cache.items|;

    // a prune at the first epoch empties the cache
    cache.Prune(epoch);
    assert cache.items == map[];
    finalizedSlots := [f1, f2, cache.finalizedSlot];
    itemCounts := [n1, n2, |cache.items|];
  }

  /** `pruning`: `BeforeFinality`, then `AfterFinality`. The test's slots
      one, two and three epochs in are any three increasing non-zero slots
      here. `finalizedSlots` and `itemCounts` are the values the test
      inspects, in the order it inspects them; `genesisEntries` is the map
      after the first observation and again after the prune at zero,
      `laterEntries` the map after the observation three epochs in and
      again after the prune at two epochs. */
  method Pruning(maxBlobs: nat, epoch: Slot, twoEpochs: Slot, threeEpochs: Slot,
                 rootA: Hash256, rootB: Hash256, rootC: Hash256)
    returns (atGenesis: Result<bool>, atFinalized: Result<bool>, afterFinalized: Result<bool>,
             finalizedSlots: seq<Slot>, itemCounts: seq<nat>,
             genesisEntries: seq<map<CacheModel.Key, set<U64>>>,
             laterEntries: seq<map<CacheModel.Key, set<U64>>>)
    requires 1 <= maxBlobs && 0 < epoch < twoEpochs < threeEpochs
    ensures atGenesis == Ok(false)
    ensures atFinalized == Err(FinalizedBlob(epoch, epoch))
    ensures afterFinalized == Ok(false)
    ensures finalizedSlots == [0, 0, epoch, twoEpochs]
    ensures itemCounts == [1, 1, 0, 0, 1, 1]
    ensures genesisEntries == [map[(rootA, 0) := {0}], map[(rootA, 0) := {0}]]
    ensures laterEntries == [map[(rootB, threeEpochs) := {0}], map[(rootB, threeEpochs) := {0}]]
  {
    var cache := new ObservedBlobSidecars(maxBlobs);
    var earlySlots, earlyCounts, laterCounts, genesisObserved, genesisPruned, laterObserved;
    atGenesis, earlySlots, earlyCounts, genesisObserved, genesisPruned := BeforeFinality(cache, epoch, rootA);
    atFinalized, afterFinalized, laterCounts, laterObserved := AfterFinality(cache, epoch, twoEpochs, threeEpochs, rootB, rootC);
    finalizedSlots := earlySlots + [cache.finalizedSlot];
    itemCounts := earlyCounts + laterCounts;
    genesisEntries := [genesisObserved, genesisPruned];
    laterEntries := [laterObserved, cache.items];
  }
}
