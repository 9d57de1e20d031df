/** `ObservedBlobSidecars`: the cache of blob sidecars seen on gossip, with
    its two fields updated in place. Each method is proved to do what the
    matching function of CacheModel does to the state it abstracts. */
module BlobSidecarCache {
  import opened Types
  import CacheModel

  class ObservedBlobSidecars {
    /** `T::max_blobs_per_block()`, fixed for the life of the cache. */
    const maxBlobsPerBlock: nat
    var finalizedSlot: Slot
    /** All received blob indices for each `(root, slot)`. */
    var items: map<CacheModel.Key, set<U64>>

    /** The value this object stands for. */
    function State(): CacheModel.Cache
      reads this
    {
      CacheModel.Cache(maxBlobsPerBlock, finalizedSlot, items)
    }

    ghost predicate Valid()
      reads this
    {
      CacheModel.Valid(State())
    }

    /** `Default::default`: empty, with `finalizedSlot == 0`. */
    constructor (maxBlobsPerBlock: nat)
      ensures this.maxBlobsPerBlock == maxBlobsPerBlock
      ensures finalizedSlot == 0 && items == map[]
      ensures State() == CacheModel.Default(maxBlobsPerBlock)
      ensures Valid()
    {
      this.maxBlobsPerBlock := maxBlobsPerBlock;
      finalizedSlot := 0;
      items := map[];
    }

    /** `sanitize_blob_sidecar`: a read-only check of the index and the slot. */
    method SanitizeBlobSidecar(s: BlobSidecar) returns (r: Result<()>)
      ensures r == CacheModel.Sanitize(State(), s)
      ensures s.index as int >= maxBlobsPerBlock ==> r == Err(InvalidBlobIndex(s.index))
      ensures r.Ok? <==> s.index as int < maxBlobsPerBlock && (finalizedSlot == 0 || s.slot > finalizedSlot)
    {
      if s.index as int >= maxBlobsPerBlock {
        return Err(InvalidBlobIndex(s.index));
      }
      var finalized := finalizedSlot;
      if finalized > 0 && s.slot <= finalized {
        return Err(FinalizedBlob(s.slot, finalized));
      }
      return Ok(());
    }

    /** `observe_sidecar`: record the sidecar and say whether it was a
        duplicate. The caller must have checked the proposer signature. */
    method ObserveSidecar(s: BlobSidecar) returns (r: Result<bool>)
      requires Valid()
      modifies this
      ensures Valid()
      ensures (State(), r) == CacheModel.Observe(old(State()), s)
      ensures r.Err? ==> items == old(items) && finalizedSlot == old(finalizedSlot)
      ensures r.Ok? ==> r.value == (CacheModel.KeyOf(s) in old(items) && s.index in old(items)[CacheModel.KeyOf(s)])
      ensures r.Ok? ==> items == old(items)[CacheModel.KeyOf(s) := CacheModel.Indices(old(items), CacheModel.KeyOf(s)) + {s.index}]
      ensures finalizedSlot == old(finalizedSlot)
    {
      var checked := SanitizeBlobSidecar(s);
      if checked.Err? {
        return Err(checked.error);
      }
      var key := (s.blockRoot, s.slot);
      var indices := if key in items then items[key] else {};
      var didNotExist := s.index !in indices;
      items := items[key := indices + {s.index}];
      r := Ok(!didNotExist);
    }

    /** `is_known`: whether the sidecar has been observed within the prune
        window, after the same validation. */
    method IsKnown(s: BlobSidecar) returns (r: Result<bool>)
      ensures r == CacheModel.IsKnown(State(), s)
      ensures r.Ok? ==> (r.value <==> CacheModel.KeyOf(s) in items && s.index in items[CacheModel.KeyOf(s)])
    {
      var checked := SanitizeBlobSidecar(s);
      if checked.Err? {
        return Err(checked.error);
      }
      var key := (s.blockRoot, s.slot);
      var isKnown := if key in items then s.index in items[key] else false;
      r := Ok(isKnown);
    }

    /** `prune`: move the finality mark to `n` and drop every entry at or
        before it; `n == 0` is ignored. */
    method Prune(n: Slot)
      requires Valid()
      modifies this
      ensures Valid()
      ensures State() == CacheModel.Prune(old(State()), n)
      ensures n == 0 ==> finalizedSlot == old(finalizedSlot) && items == old(items)
      ensures n > 0 ==> finalizedSlot == n
      ensures n > 0 ==> items == CacheModel.Retain(old(items), n)
    {
      if n == 0 {
        return;
      }
      finalizedSlot := n;
      items := CacheModel.Retain(items, n);
    }
  }
}
