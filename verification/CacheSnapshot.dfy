/** The id cache as a mathematical value: a version and one mark per id. Every
    method of the cache class is specified by one of these functions. */
module CacheSnapshot {
  import opened MachineIntegers

  /** What the cache keeps for an id. lastSeen == 0 is a tombstone. */
  datatype Mark = Mark(checksum: uint64, lastSeen: uint64)

  datatype Snapshot = Snapshot(version: uint64, marks: map<uint64, Mark>)

  datatype CacheState = CacheOk | CacheNotSet | CacheNotSync

  /** No mark is from the future, and the version never reaches its two reserved values. */
  predicate WellFormed(s: Snapshot) {
    && 1 <= s.version < UINT64_MAX
    && forall id | id in s.marks :: s.marks[id].lastSeen <= s.version
  }

  const EMPTY := Snapshot(1, map[])

  predicate IsLive(s: Snapshot, id: uint64) {
    id in s.marks && s.marks[id].lastSeen != 0
  }

  function Put(s: Snapshot, id: uint64, checksum: uint64): Snapshot {
    s.(marks := s.marks[id := Mark(checksum, s.version)])
  }

  /** Looking a live id up marks it as seen; nothing else changes. */
  function LookedUp(s: Snapshot, id: uint64): Snapshot {
    if IsLive(s, id) then Put(s, id, s.marks[id].checksum) else s
  }

  function StateOf(s: Snapshot, id: uint64, checksum: uint64): CacheState {
    if !IsLive(s, id) then CacheNotSet
    else if s.marks[id].checksum != checksum then CacheNotSync
    else CacheOk
  }

  function Tombstoned(s: Snapshot, id: uint64): Snapshot {
    if id in s.marks then s.(marks := s.marks[id := s.marks[id].(lastSeen := 0)]) else s
  }

  function TombstonedAll(s: Snapshot, ids: set<uint64>): Snapshot {
    s.(marks := map id | id in s.marks ::
      if id in ids then s.marks[id].(lastSeen := 0) else s.marks[id])
  }

  function Compacted(s: Snapshot): Snapshot {
    s.(marks := map id | id in s.marks && s.marks[id].lastSeen != 0 :: s.marks[id])
  }

  /** The next version. One step before the counter would saturate, every mark
      (tombstones too) restarts at 1. */
  function Bumped(s: Snapshot): Snapshot {
    if s.version >= UINT64_MAX - 1
    then Snapshot(1, map id | id in s.marks :: s.marks[id].(lastSeen := 1))
    else s.(version := s.version + 1)
  }

  predicate IsPrunable(s: Snapshot, drift: uint64, id: uint64) {
    && drift < s.version
    && IsLive(s, id)
    && s.marks[id].lastSeen <= s.version - drift
  }

  function Prunable(s: Snapshot, drift: uint64): set<uint64> {
    set id | id in s.marks && IsPrunable(s, drift, id)
  }
}
