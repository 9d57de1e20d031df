/** The state of `ObservedBlobSidecars` as a value, and each of its
    operations as a function from the old state to the new state and the
    result. The class in BlobSidecarCache is proved to follow these
    functions; the lemmas here say what they mean over any sequence of
    calls. */
module CacheModel {
  import opened Types

  /** The map key: a block root together with the slot of the block. */
  type Key = (Hash256, Slot)

  /** `maxBlobsPerBlock` is the protocol constant `T::max_blobs_per_block()`;
      `items` maps each `(root, slot)` to the blob indices seen for it. */
  datatype Cache = Cache(maxBlobsPerBlock: nat, finalizedSlot: Slot, items: map<Key, set<U64>>)

  function KeyOf(s: BlobSidecar): Key
  {
    (s.blockRoot, s.slot)
  }

  /** The indices recorded under `k`; none when the key is absent. */
  function Indices(items: map<Key, set<U64>>, k: Key): set<U64>
  {
    if k in items then items[k] else {}
  }

  /** The sidecar's `(root, slot, index)` triple has been recorded. */
  predicate Contains(items: map<Key, set<U64>>, s: BlobSidecar)
  {
    KeyOf(s) in items && s.index in items[KeyOf(s)]
  }

  /** What the cache keeps true of itself: no stored index reaches the
      per-block maximum, and once finality is known every stored slot lies
      strictly after it. */
  ghost predicate Valid(c: Cache)
  {
    && (forall k | k in c.items :: forall i | i in c.items[k] :: i as int < c.maxBlobsPerBlock)
    && (c.finalizedSlot > 0 ==> forall k | k in c.items :: k.1 > c.finalizedSlot)
  }

  /** `Default::default`: nothing observed, finality not yet known. */
  function Default(maxBlobsPerBlock: nat): (c: Cache)
    ensures c.maxBlobsPerBlock == maxBlobsPerBlock
    ensures forall s: BlobSidecar :: !Contains(c.items, s)
    ensures c.finalizedSlot == 0 && |c.items| == 0
    ensures Valid(c)
  {
    Cache(maxBlobsPerBlock, 0, map[])
  }

  /** `sanitize_blob_sidecar`: the index bound is checked first, then the
      finality bound, which only applies once the finalized slot is non-zero
      and also rejects a slot equal to it. */
  function Sanitize(c: Cache, s: BlobSidecar): (r: Result<()>)
    ensures s.index as int >= c.maxBlobsPerBlock ==> r == Err(InvalidBlobIndex(s.index))
    ensures s.index as int < c.maxBlobsPerBlock && 0 < c.finalizedSlot && s.slot <= c.finalizedSlot
            ==> r == Err(FinalizedBlob(s.slot, c.finalizedSlot))
    ensures r.Ok? <==> s.index as int < c.maxBlobsPerBlock && (c.finalizedSlot == 0 || s.slot > c.finalizedSlot)
  {
    if s.index as int >= c.maxBlobsPerBlock then
      Err(InvalidBlobIndex(s.index))
    else if c.finalizedSlot > 0 && s.slot <= c.finalizedSlot then
      Err(FinalizedBlob(s.slot, c.finalizedSlot))
    else
      Ok(())
  }

  /** `is_known`: after validation, whether the triple has been recorded;
      an absent key answers `false`. */
  function IsKnown(c: Cache, s: BlobSidecar): (r: Result<bool>)
    ensures Sanitize(c, s).Err? ==> r == Err(Sanitize(c, s).error)
    ensures Sanitize(c, s).Ok? ==> r.Ok?
    ensures s.index as int >= c.maxBlobsPerBlock ==> r == Err(InvalidBlobIndex(s.index))
    ensures s.index as int < c.maxBlobsPerBlock && 0 < c.finalizedSlot && s.slot <= c.finalizedSlot
            ==> r == Err(FinalizedBlob(s.slot, c.finalizedSlot))
    ensures r.Ok? && KeyOf(s) !in c.items ==> !r.value
    ensures r.Ok? ==> (r.value <==> KeyOf(s) in c.items && s.index in c.items[KeyOf(s)])
  {
    match Sanitize(c, s)
    case Err(e) => Err(e)
    case Ok(_) => Ok(Contains(c.items, s))
  }

  /** The `entry(..).or_insert_with(..).insert(..)` update: add `i` to the
      set under `k`, creating the set if the key is new. */
  function Insert(items: map<Key, set<U64>>, k: Key, i: U64): (r: map<Key, set<U64>>)
    ensures r.Keys == items.Keys + {k}
    ensures r[k] == Indices(items, k) + {i}
    ensures forall k' | k' in items && k' != k :: r[k'] == items[k']
  {
    items[k := Indices(items, k) + {i}]
  }

  /** How the sizes move on an insert: a new key adds one entry, a new
      index adds one element to its key's set; repeats add nothing. */
  lemma InsertSizes(items: map<Key, set<U64>>, k: Key, i: U64)
    ensures |Insert(items, k, i)| == if k in items then |items| else |items| + 1
    ensures |Insert(items, k, i)[k]| == if i in Indices(items, k) then |Indices(items, k)| else |Indices(items, k)| + 1
  {
    var was := Indices(items, k);
    if i in was {
      assert was + {i} == was;
    } else {
      assert |was + {i}| == |was| + |{i}|;
    }
  }

  /** `observe_sidecar`: the new state and the result. The result answers
      "was this a duplicate", so it is `true` exactly when the triple was
      already recorded. A rejected sidecar changes nothing. */
  function Observe(c: Cache, s: BlobSidecar): (r: (Cache, Result<bool>))
    ensures Sanitize(c, s).Err? ==> r.0 == c && r.1 == Err(Sanitize(c, s).error)
    ensures Sanitize(c, s).Ok? ==> r.1 == Ok(Contains(c.items, s))
    ensures r.1 == IsKnown(c, s)
    ensures s.index as int >= c.maxBlobsPerBlock ==> r == (c, Err(InvalidBlobIndex(s.index)))
    ensures s.index as int < c.maxBlobsPerBlock && 0 < c.finalizedSlot && s.slot <= c.finalizedSlot
            ==> r == (c, Err(FinalizedBlob(s.slot, c.finalizedSlot)))
    ensures r.0.maxBlobsPerBlock == c.maxBlobsPerBlock && r.0.finalizedSlot == c.finalizedSlot
    ensures Sanitize(c, s).Ok? ==> Contains(r.0.items, s)
    ensures Sanitize(c, s).Ok? ==> r.0.items.Keys == c.items.Keys + {KeyOf(s)}
    ensures Sanitize(c, s).Ok? ==> r.0.items[KeyOf(s)] == Indices(c.items, KeyOf(s)) + {s.index}
    ensures forall k | k in c.items && k != KeyOf(s) :: r.0.items[k] == c.items[k]
    ensures Valid(c) ==> Valid(r.0)
  {
    match Sanitize(c, s)
    case Err(e) => (c, Err(e))
    case Ok(_) =>
      var k := KeyOf(s);
      (c.(items := Insert(c.items, k, s.index)), Ok(Contains(c.items, s)))
  }

  /** The `retain` filter: keep the entries whose slot is after `n`. */
  function Retain(items: map<Key, set<U64>>, n: Slot): (r: map<Key, set<U64>>)
    ensures forall k :: k in r <==> k in items && k.1 > n
    ensures forall k | k in r :: r[k] == items[k]
  {
    map k | k in items && k.1 > n :: items[k]
  }

  /** `prune`: zero leaves everything as it is; any other slot becomes the
      finalized slot, whether or not it is below the old one, and every entry
      at or before it is dropped. */
  function Prune(c: Cache, n: Slot): (r: Cache)
    ensures n == 0 ==> r == c
    ensures n > 0 ==> r.finalizedSlot == n
    ensures r.maxBlobsPerBlock == c.maxBlobsPerBlock
    ensures n > 0 ==> forall k :: k in r.items <==> k in c.items && k.1 > n
    ensures forall k | k in r.items :: k in c.items && r.items[k] == c.items[k]
    ensures Valid(c) ==> Valid(r)
  {
    if n == 0 then c else c.(finalizedSlot := n, items := Retain(c.items, n))
  }

  /** After a prune to a non-zero slot every sidecar at or before that slot
      is refused, by either query, with the finality error (given a valid
      index); this is what keeps pruned entries from coming back. */
  lemma PruneRejectsFinalized(c: Cache, n: Slot, s: BlobSidecar)
    requires n > 0 && s.slot <= n && (s.index as int) < c.maxBlobsPerBlock
    ensures IsKnown(Prune(c, n), s) == Err(FinalizedBlob(s.slot, n))
    ensures Observe(Prune(c, n), s) == (Prune(c, n), Err(FinalizedBlob(s.slot, n)))
  {
  }

  /** Observing the same triple twice: the first call (if accepted) reports
      a new sidecar only if it was unknown, and the second call always
      reports a duplicate and changes nothing further. */
  lemma ObserveTwice(c: Cache, s: BlobSidecar)
    requires Sanitize(c, s).Ok?
    ensures var c1 := Observe(c, s).0;
            Observe(c1, s) == (c1, Ok(true)) && IsKnown(c1, s) == Ok(true)
  {
    var c1 := Observe(c, s).0;
    assert Sanitize(c1, s) == Sanitize(c, s);
    assert c1.items[KeyOf(s)] + {s.index} == c1.items[KeyOf(s)];
    assert Insert(c1.items, KeyOf(s), s.index) == c1.items;
  }

  /** Observing one triple leaves what either query says about every other
      triple as it was: other indices of the same block, and other blocks
      and slots, are tracked independently. */
  lemma ObserveIndependent(c: Cache, s: BlobSidecar, t: BlobSidecar)
    requires KeyOf(t) != KeyOf(s) || t.index != s.index
    ensures IsKnown(Observe(c, s).0, t) == IsKnown(c, t)
    ensures Observe(Observe(c, s).0, t).1 == Observe(c, t).1
  {
  }

  // Traces of calls: the only two ways the cache changes.

  /** One call of a mutating operation. */
  datatype Op = ObserveOp(sidecar: BlobSidecar) | PruneOp(finalizedSlot: Slot)

  function Step(c: Cache, op: Op): Cache
  {
    match op
    case ObserveOp(s) => Observe(c, s).0
    case PruneOp(n) => Prune(c, n)
  }

  /** The state after running `ops` in order from `c`. */
  function Run(c: Cache, ops: seq<Op>): Cache
    decreases |ops|
  {
    if ops == [] then c else Run(Step(c, ops[0]), ops[1..])
  }

  /** The invariant holds in every state reachable by any sequence of
      observations and prunes. */
  lemma {:induction false} RunPreservesValid(c: Cache, ops: seq<Op>)
    requires Valid(c)
    ensures Valid(Run(c, ops)) && Run(c, ops).maxBlobsPerBlock == c.maxBlobsPerBlock
    decreases |ops|
  {
    if ops != [] {
      RunPreservesValid(Step(c, ops[0]), ops[1..]);
    }
  }

  /** Every cache that ever exists satisfies the invariant: it starts empty
      and only observations and prunes change it. */
  lemma ReachableValid(maxBlobsPerBlock: nat, ops: seq<Op>)
    ensures Valid(Run(Default(maxBlobsPerBlock), ops))
  {
    RunPreservesValid(Default(maxBlobsPerBlock), ops);
  }

  /** Once finality is known it is never forgotten: a prune at zero is
      ignored and every other prune sets a non-zero slot, so no sequence of
      calls brings the finalized slot back to zero. */
  lemma {:induction false} FinalityStaysKnown(c: Cache, ops: seq<Op>)
    requires c.finalizedSlot > 0
    ensures Run(c, ops).finalizedSlot > 0
    decreases |ops|
  {
    if ops != [] {
      FinalityStaysKnown(Step(c, ops[0]), ops[1..]);
    }
  }

  /** A recorded triple was either already there at the start or was handed
      to an observation along the way: nothing else inserts. */
  lemma {:induction false} RunOnlyObserved(c: Cache, ops: seq<Op>, k: Key, i: U64)
    requires k in Run(c, ops).items && i in Run(c, ops).items[k]
    ensures (k in c.items && i in c.items[k])
            || exists j :: 0 <= j < |ops| && ops[j] == ObserveOp(BlobSidecar(k.0, k.1, i))
    decreases |ops|
  {
    if ops != [] {
      var c1 := Step(c, ops[0]);
      RunOnlyObserved(c1, ops[1..], k, i);
      if k in c1.items && i in c1.items[k] {
        if !(k in c.items && i in c.items[k]) {
          // only an accepted observation of exactly this triple adds it
          assert ops[0] == ObserveOp(BlobSidecar(k.0, k.1, i));
        }
      } else {
        var j :| 0 <= j < |ops[1..]| && ops[1..][j] == ObserveOp(BlobSidecar(k.0, k.1, i));
        assert ops[j + 1] == ObserveOp(BlobSidecar(k.0, k.1, i));
      }
    }
  }

  /** Every prune in `ops` leaves slot `slot` unfinalized: it is the no-op
      prune at zero or a prune below `slot`. */
  ghost predicate PrunesBelow(ops: seq<Op>, slot: Slot)
  {
    forall j | 0 <= j < |ops| && ops[j].PruneOp? :: ops[j].finalizedSlot == 0 || ops[j].finalizedSlot < slot
  }

  /** A recorded, still-acceptable sidecar stays recorded and acceptable
      through any observations and any prunes that stay below its slot. */
  lemma {:induction false} KnownSurvives(c: Cache, ops: seq<Op>, s: BlobSidecar)
    requires Contains(c.items, s) && Sanitize(c, s).Ok?
    requires PrunesBelow(ops, s.slot)
    ensures Contains(Run(c, ops).items, s) && Sanitize(Run(c, ops), s).Ok?
    decreases |ops|
  {
    if ops != [] {
      var c1 := Step(c, ops[0]);
      assert Contains(c1.items, s) && Sanitize(c1, s).Ok?;
      assert PrunesBelow(ops[1..], s.slot) by {
        forall j | 0 <= j < |ops[1..]| && ops[1..][j].PruneOp?
          ensures ops[1..][j].finalizedSlot == 0 || ops[1..][j].finalizedSlot < s.slot
        {
          assert ops[1..][j] == ops[j + 1];
        }
      }
      KnownSurvives(c1, ops[1..], s);
    }
  }

  /** Duplicate detection regardless of repetition: once a sidecar has been
      accepted, every later observation of the same triple reports a
      duplicate, however many other calls come in between, as long as no
      prune reaches its slot. */
  lemma DuplicateForever(c: Cache, s: BlobSidecar, ops: seq<Op>)
    requires Observe(c, s).1.Ok?
    requires PrunesBelow(ops, s.slot)
    ensures Observe(Run(Observe(c, s).0, ops), s).1 == Ok(true)
    ensures IsKnown(Run(Observe(c, s).0, ops), s) == Ok(true)
  {
    KnownSurvives(Observe(c, s).0, ops, s);
  }
}
