/** Pruning: deleting the rows of the ids that no walk showed for a number of
    versions, from table and cache alike (src/bx_prune.c:9-38). */
module Prune {
  import opened MachineIntegers
  import opened CacheSnapshot
  import opened IdsCache
  import opened ItemSync
  import opened Sweep

  const DEFAULT_DRIFT: uint64 := 10

  /** The configured drift as it reaches the cache: a C int widened to 64 bits, 0 meaning the default. */
  function DriftOf(configured: cint): (drift: uint64)
    ensures drift != 0
  {
    if configured == 0 then DEFAULT_DRIFT
    else if configured < 0 then (configured + 0x1_0000_0000_0000_0000) as uint64
    else configured as uint64
  }

  /** How a pruning ended. Stopped names the id whose DELETE was refused. */
  datatype PruneEnd = Done | Stopped(at: uint64) | NoQuery

  function Deleted(s: Snapshot, drift: uint64, end: PruneEnd): set<uint64> {
    match end
    case Done => Prunable(s, drift)
    case Stopped(at) => Below(s, drift, at as int)
    case NoQuery => {}
  }

  function Without(s: Store, ids: set<uint64>): Store {
    Store(TombstonedAll(s.cache, ids), s.rows - ids)
  }

  function PrunedStore(s: Store, drift: uint64, end: PruneEnd): Store {
    var r := Without(s, Deleted(s.cache, drift, end));
    if end.Done? then r.(cache := Compacted(r.cache)) else r
  }

  /** The drift that reaches the cache: 10 if none is configured; a negative one is
      larger than any version short of 2^64 - 2^31, so that nothing is prunable. */
  lemma DriftMeans(configured: cint, s: Snapshot)
    ensures configured == 0 ==> DriftOf(configured) == 10
    ensures configured > 0 ==> DriftOf(configured) as int == configured
    ensures configured < 0 && s.version as int < 0x1_0000_0000_0000_0000 - 0x8000_0000 ==> Prunable(s, DriftOf(configured)) == {}
  {
  }

  /** What a pruning does to one id. A deleted one leaves the table, and the cache
      as well when the pruning is done; until then it is a tombstone. Any other
      keeps its row, and its mark unless that was a tombstone already. */
  lemma PrunedExactly(s: Store, drift: uint64, end: PruneEnd, id: uint64)
    ensures var r := PrunedStore(s, drift, end);
            var deleted := IsPrunable(s.cache, drift, id) && (end.Done? || (end.Stopped? && id < end.at));
            && r.cache.version == s.cache.version
            && (id in r.rows <==> id in s.rows && !deleted) && (id in r.rows ==> r.rows[id] == s.rows[id])
            && (id in r.cache.marks <==> id in s.cache.marks && (end.Done? ==> IsLive(s.cache, id) && !deleted))
            && (id in r.cache.marks ==>
                  r.cache.marks[id] == if deleted then s.cache.marks[id].(lastSeen := 0) else s.cache.marks[id])
  {
  }

  ghost predicate StrictlyAscending(ids: seq<uint64>) {
    forall i, j | 0 <= i < j < |ids| :: ids[i] < ids[j]
  }

  function WithoutOne(s: Store, id: uint64): Store {
    Store(Tombstoned(s.cache, id), s.rows - {id})
  }

  lemma WithoutMore(s: Store, ids: set<uint64>, id: uint64)
    ensures WithoutOne(Without(s, ids), id) == Without(s, ids + {id})
  {
    assert s.rows - ids - {id} == s.rows - (ids + {id});
  }

  lemma NoneGone(s: Store)
    ensures Without(s, {}) == s
  {
    assert s.rows - {} == s.rows;
  }

  /** Finds the next prunable id, DELETEs its row and, if that went well, tombstones it. */
  method DeleteNext(iter: CacheIter, table: Table, drift: uint64) returns (found: bool, ok: bool, id: uint64)
    requires iter.c.Valid() && iter.version == iter.c.version && iter.current <= iter.c.count
    modifies iter, iter.c.items, table
    ensures iter.c.Valid() && iter.current <= iter.c.count
    ensures !found ==> NoneLeft(old(iter.c.items[..iter.c.count]), iter.version, drift, old(iter.current) as int)
    ensures found ==>
      && old(iter.current) < iter.current
      && IsNext(old(iter.c.items[..iter.c.count]), iter.version, drift, old(iter.current) as int, iter.current as int - 1)
      && id == old(iter.c.items[..iter.c.count])[iter.current - 1].id
    ensures SamePlaces(old(iter.c.items[..iter.c.count]), iter.c.items[..iter.c.count], id)
    ensures StoreOf(iter.c, table) ==
      if found && ok then WithoutOne(old(StoreOf(iter.c, table)), id) else old(StoreOf(iter.c, table))
  {
    ok := false;
    found, id := iter.NextPrunableId(drift);
    if found {
      ok := table.Delete(id);
      if ok {
        iter.c.Tombstone(id);
      }
    }
  }

  lemma AscendingMore(ids: seq<uint64>, all: set<uint64>, id: uint64)
    requires StrictlyAscending(ids) && (set x | x in ids) == all
    requires forall x | x in all :: x < id
    ensures StrictlyAscending(ids + [id])
    ensures (set x | x in ids + [id]) == all + {id}
  {
    forall i, j | 0 <= i < j < |ids + [id]| ensures (ids + [id])[i] < (ids + [id])[j] {
      assert ids[i] in all;
    }
  }

  /** How far a DELETE loop has come: see Swept and Without. */
  ghost predicate Deleting(was: seq<CacheItem>, now: seq<CacheItem>, at: nat, bound: int, drift: uint64,
                           before: Store, current: Store, deleted: seq<uint64>) {
    && before.cache.marks == MarksOf(was)
    && Swept(was, now, at, bound)
    && current == Without(before, Below(before.cache, drift, bound))
    && StrictlyAscending(deleted)
    && (set id | id in deleted) == Below(before.cache, drift, bound)
  }

  lemma DeletingStart(was: seq<CacheItem>, drift: uint64, before: Store)
    requires StrictlySorted(was) && before.cache.marks == MarksOf(was)
    ensures Deleting(was, was, 0, 0, drift, before, before, [])
  {
    assert Below(before.cache, drift, 0) == {};
    NoneGone(before);
  }

  lemma DeletingOne(was: seq<CacheItem>, now: seq<CacheItem>, after: seq<CacheItem>, from: nat, at: nat, low: int,
                    drift: uint64, before: Store, current: Store, deleted: seq<uint64>, id: uint64)
    requires Deleting(was, now, from, low, drift, before, current, deleted)
    requires IsNext(now, before.cache.version, drift, from, at)
    requires id == now[at].id && SamePlaces(now, after, id)
    ensures Deleting(was, after, at + 1, id as int + 1, drift, before, WithoutOne(current, id), deleted + [id])
    ensures id in Prunable(before.cache, drift)
    ensures Below(before.cache, drift, id as int) == Below(before.cache, drift, low)
  {
    SweepOne(was, now, after, before.cache.version, drift, from, at, low);
    WithoutMore(before, Below(before.cache, drift, low), id);
    AscendingMore(deleted, Below(before.cache, drift, low), id);
  }

  lemma DeletingEnds(was: seq<CacheItem>, now: seq<CacheItem>, at: nat, bound: int, drift: uint64,
                     before: Store, current: Store, deleted: seq<uint64>)
    requires Deleting(was, now, at, bound, drift, before, current, deleted)
    requires NoneLeft(now, before.cache.version, drift, at)
    ensures current == Without(before, Prunable(before.cache, drift))
    ensures StrictlyAscending(deleted) && (set id | id in deleted) == Prunable(before.cache, drift)
  {
    SweepEnd(was, now, before.cache.version, drift, at, bound);
  }

  /** One turn of the DELETE loop. Done while there is more to look for. */
  method DeleteTurn(iter: CacheIter, table: Table, drift: uint64, gone: seq<uint64>,
                    ghost was: seq<CacheItem>, ghost before: Store, ghost bound: int)
    returns (going: bool, end: PruneEnd, deleted: seq<uint64>, ghost after: int)
    requires iter.c.Valid() && iter.current <= iter.c.count && iter.version == iter.c.version == before.cache.version
    requires Deleting(was, iter.c.items[..iter.c.count], iter.current as int, bound, drift, before, StoreOf(iter.c, table), gone)
    modifies iter, iter.c.items, table
    ensures iter.c.Valid() && iter.current <= iter.c.count
    ensures going ==>
      && old(iter.current) < iter.current
      && Deleting(was, iter.c.items[..iter.c.count], iter.current as int, after, drift, before, StoreOf(iter.c, table), deleted)
    ensures !going ==>
      && StoreOf(iter.c, table) == Without(before, Deleted(before.cache, drift, end))
      && StrictlyAscending(deleted) && (set id | id in deleted) == Deleted(before.cache, drift, end)
      && (end.Stopped? ==> end.at in Prunable(before.cache, drift)) && end != NoQuery
  {
    ghost var from, now, current := iter.current as int, iter.c.items[..iter.c.count], StoreOf(iter.c, table);
    var found, ok, id := DeleteNext(iter, table, drift);
    if !found {
      DeletingEnds(was, now, from, bound, drift, before, current, gone);
      return false, Done, gone, bound;
    }
    DeletingOne(was, now, iter.c.items[..iter.c.count], from, iter.current as int - 1, bound, drift, before, current, gone, id);
    if !ok {
      return false, Stopped(id), gone, bound;
    }
    return true, Done, gone + [id], id as int + 1;
  }

  /** The DELETE loop: every prunable row, smallest id first, tombstoning behind itself. */
  method DeleteAll(cache: Cache, table: Table, drift: uint64)
    returns (end: PruneEnd, deleted: seq<uint64>)
    requires cache.Valid()
    modifies cache.items, table
    ensures cache.Valid()
    ensures StoreOf(cache, table) == Without(old(StoreOf(cache, table)), Deleted(old(cache.Snap()), drift, end))
    ensures StrictlyAscending(deleted)
    ensures (set id | id in deleted) == Deleted(old(cache.Snap()), drift, end)
    ensures end.Stopped? ==> end.at in Prunable(old(cache.Snap()), drift)
    ensures end != NoQuery
  {
    ghost var was, before, bound := cache.items[..cache.count], StoreOf(cache, table), 0;
    DeletingStart(was, drift, before);
    var iter := new CacheIter(cache);
    var going := true;
    end, deleted := Done, [];
    while going
      invariant cache.Valid() && iter.current <= cache.count
      invariant going ==> Deleting(was, cache.items[..cache.count], iter.current as int, bound, drift,
                                   before, StoreOf(cache, table), deleted)
      invariant !going ==>
        && StoreOf(cache, table) == Without(before, Deleted(before.cache, drift, end))
        && StrictlyAscending(deleted) && (set id | id in deleted) == Deleted(before.cache, drift, end)
        && (end.Stopped? ==> end.at in Prunable(before.cache, drift)) && end != NoQuery
      decreases going, cache.count - iter.current
    {
      going, end, deleted, bound := DeleteTurn(iter, table, drift, deleted, was, before, bound);
    }
  }

  /** Prunes one resource: the DELETE loop, then compaction. A refused DELETE
      leaves the tombstones of what went before. */
  method PruneItems(cache: Cache, table: Table, configured: cint, ready: bool)
    returns (end: PruneEnd, deleted: seq<uint64>)
    requires cache.Valid()
    modifies cache, cache.items, table
    ensures cache.Valid() && cache.items == old(cache.items)
    ensures StoreOf(cache, table) == PrunedStore(old(StoreOf(cache, table)), DriftOf(configured), end)
    ensures StrictlyAscending(deleted)
    ensures (set id | id in deleted) == Deleted(old(cache.Snap()), DriftOf(configured), end)
    ensures end.Stopped? ==> end.at in Prunable(old(cache.Snap()), DriftOf(configured))
    ensures end == NoQuery <==> !ready
  {
    if !ready {
      NoneGone(StoreOf(cache, table));
      return NoQuery, [];
    }
    end, deleted := DeleteAll(cache, table, DriftOf(configured));
    if end == Done {
      cache.Prune();
    }
  }
}
