/** The id cache of src/bx_ids_cache.c: a growable array kept strictly sorted by
    id, refined against the map of module CacheSnapshot. */
module IdsCache {
  import opened MachineIntegers
  import opened CacheSnapshot

  const CACHE_CHUNK_SIZE: uint32 := 1000

  datatype CacheItem = CacheItem(id: uint64, checksum: uint64, lastSeen: uint64)

  predicate StrictlySorted(s: seq<CacheItem>) {
    forall i, j | 0 <= i < j < |s| :: s[i].id < s[j].id
  }

  function MarkOf(item: CacheItem): Mark {
    Mark(item.checksum, item.lastSeen)
  }

  /** The map an item sequence stands for. */
  ghost function MarksOf(s: seq<CacheItem>): map<uint64, Mark> {
    if s == [] then map[] else
      MarksOf(s[..|s| - 1])[s[|s| - 1].id := MarkOf(s[|s| - 1])]
  }

  lemma {:induction false} MarksAt(s: seq<CacheItem>, at: nat)
    requires at < |s| && StrictlySorted(s)
    ensures s[at].id in MarksOf(s) && MarksOf(s)[s[at].id] == MarkOf(s[at])
  {
    if at == |s| - 1 {
    } else {
      MarksAt(s[..|s| - 1], at);
    }
  }

  lemma {:induction false} MarksAbsent(s: seq<CacheItem>, id: uint64)
    requires forall i | 0 <= i < |s| :: s[i].id != id
    ensures id !in MarksOf(s)
  {
    if s == [] {
    } else {
      MarksAbsent(s[..|s| - 1], id);
    }
  }

  /** Splits a sorted sequence at an id: everything before is smaller, everything from there on is not. */
  predicate IsLowerBound(s: seq<CacheItem>, id: uint64, at: nat) {
    && at <= |s|
    && (forall i | 0 <= i < at :: s[i].id < id)
    && (forall i | at <= i < |s| :: id <= s[i].id)
  }

  /** The items that survive compaction, in order. */
  function Live(s: seq<CacheItem>): (r: seq<CacheItem>) {
    if s == [] then []
    else if s[|s| - 1].lastSeen != 0 then Live(s[..|s| - 1]) + [s[|s| - 1]]
    else Live(s[..|s| - 1])
  }

  lemma {:induction false} LiveElements(s: seq<CacheItem>)
    ensures forall x :: x in Live(s) <==> x in s && x.lastSeen != 0
    ensures |Live(s)| <= |s|
  {
    if s == [] {
    } else {
      LiveElements(s[..|s| - 1]);
      assert s == s[..|s| - 1] + [s[|s| - 1]];
    }
  }

  lemma {:induction false} LiveSorted(s: seq<CacheItem>)
    requires StrictlySorted(s)
    ensures StrictlySorted(Live(s))
  {
    if s == [] {
    } else {
      var init := s[..|s| - 1];
      LiveSorted(init);
      LiveElements(init);
      forall i | 0 <= i < |Live(init)| ensures Live(init)[i].id < s[|s| - 1].id {
        assert Live(init)[i] in init;
      }
    }
  }

  lemma {:induction false} LiveMark(s: seq<CacheItem>, id: uint64)
    requires StrictlySorted(s)
    ensures id in MarksOf(Live(s)) <==> id in MarksOf(s) && MarksOf(s)[id].lastSeen != 0
    ensures id in MarksOf(Live(s)) ==> MarksOf(Live(s))[id] == MarksOf(s)[id]
  {
    if s == [] {
    } else {
      var init, last := s[..|s| - 1], s[|s| - 1];
      LiveMark(init, id);
      MarksAbsent(init, last.id);
      if last.lastSeen != 0 {
        assert Live(s)[..|Live(s)| - 1] == Live(init);
      }
    }
  }

  /** Compaction drops exactly the tombstones of the map. */
  lemma LiveMarks(s: seq<CacheItem>, version: uint64)
    requires StrictlySorted(s)
    ensures Snapshot(version, MarksOf(Live(s))) == Compacted(Snapshot(version, MarksOf(s)))
  {
    forall id ensures
      && (id in MarksOf(Live(s)) <==> id in MarksOf(s) && MarksOf(s)[id].lastSeen != 0)
      && (id in MarksOf(Live(s)) ==> MarksOf(Live(s))[id] == MarksOf(s)[id])
    {
      LiveMark(s, id);
    }
  }

  /** Overwriting the item found at an index updates one mark. */
  lemma {:induction false} MarksOfUpdate(s: seq<CacheItem>, at: nat, item: CacheItem)
    requires at < |s| && s[at].id == item.id && StrictlySorted(s)
    ensures StrictlySorted(s[at := item])
    ensures MarksOf(s[at := item]) == MarksOf(s)[item.id := MarkOf(item)]
  {
    var init := s[..|s| - 1];
    if at < |s| - 1 {
      MarksOfUpdate(init, at, item);
      assert s[at := item][..|s| - 1] == init[at := item];
    } else {
      assert s[at := item][..|s| - 1] == init;
    }
  }

  function Inserted(s: seq<CacheItem>, at: nat, item: CacheItem): seq<CacheItem>
    requires at <= |s|
  {
    s[..at] + [item] + s[at..]
  }

  lemma InsertedSorted(s: seq<CacheItem>, at: nat, item: CacheItem)
    requires StrictlySorted(s) && IsLowerBound(s, item.id, at)
    requires at < |s| ==> s[at].id != item.id
    ensures forall i | 0 <= i < |s| :: s[i].id != item.id
    ensures StrictlySorted(Inserted(s, at, item))
  {
    var r := Inserted(s, at, item);
    assert forall i | at < i < |s| :: s[at].id < s[i].id;
    forall i, j | 0 <= i < j < |r| ensures r[i].id < r[j].id {
      if at < j { assert s[at].id <= s[j - 1].id == r[j].id; }
    }
  }

  /** Inserting a missing id adds one mark, wherever it goes. */
  lemma {:induction false} MarksOfInserted(s: seq<CacheItem>, at: nat, item: CacheItem)
    requires at <= |s|
    requires forall i | 0 <= i < |s| :: s[i].id != item.id
    ensures MarksOf(Inserted(s, at, item)) == MarksOf(s)[item.id := MarkOf(item)]
  {
    var r := Inserted(s, at, item);
    if at < |s| {
      var init := s[..|s| - 1];
      MarksOfInserted(init, at, item);
      assert r[..|r| - 1] == Inserted(init, at, item);
    } else {
      assert r == s + [item] && r[..|r| - 1] == s;
    }
  }

  /** The items are in the same places; only the one with this id may differ. */
  predicate SamePlaces(was: seq<CacheItem>, now: seq<CacheItem>, id: uint64) {
    && |now| == |was|
    && (forall i | 0 <= i < |was| :: now[i].id == was[i].id)
    && (forall i | 0 <= i < |was| && was[i].id != id :: now[i] == was[i])
  }

  class Cache {
    var size: uint32
    var count: uint32
    var version: uint64
    var items: array<CacheItem>

    ghost predicate Valid()
      reads this, items
    {
      && items.Length == size as int
      && count <= size
      && StrictlySorted(items[..count])
      && WellFormed(Snap())
    }

    ghost function Snap(): Snapshot
      reads this, items
      requires count as int <= items.Length
    {
      Snapshot(version, MarksOf(items[..count]))
    }

    constructor ()
      ensures Valid() && fresh(items)
      ensures Snap() == EMPTY
    {
      size, count, version := 0, 0, 1;
      items := new CacheItem[0];
    }

    /** First index whose id is not below the key, or count. */
    method LowerBound(id: uint64) returns (left: uint32)
      requires count as int <= items.Length && StrictlySorted(items[..count])
      ensures left <= count
      ensures IsLowerBound(items[..count], id, left as int)
    {
      left := 0;
      var right := count;
      while left < right
        invariant left <= right <= count
        invariant forall i | 0 <= i < left :: items[i].id < id
        invariant forall i | right <= i < count :: id <= items[i].id
      {
        var middle := left + (right - left) / 2;
        assert items[..count][middle] == items[middle];
        if items[middle].id < id {
          assert forall i | 0 <= i < middle :: items[..count][i].id < items[..count][middle].id;
          left := middle + 1;
        } else {
          assert forall i | middle < i < count :: items[..count][middle].id < items[..count][i].id;
          right := middle;
        }
      }
    }

    /** The position of an id, if the cache has it. */
    method FindItem(id: uint64) returns (found: bool, at: uint32)
      requires Valid()
      ensures found <==> id in Snap().marks
      ensures found ==> at < count && items[at].id == id && Snap().marks[id] == MarkOf(items[at])
    {
      at := LowerBound(id);
      found := at < count && items[at].id == id;
      assert at < count ==> items[..count][at] == items[at];
      if found {
        MarksAt(items[..count], at as int);
      } else {
        MarksAbsent(items[..count], id);
      }
    }

    /** realloc to one more chunk, zeroed. Refused, it changes nothing. */
    method Grow() returns (ok: bool)
      requires items.Length == size as int && count <= size
      modifies this
      ensures count == old(count) && version == old(version)
      ensures items.Length == size as int && count <= size
      ensures items[..count] == old(items[..count])
      ensures ok ==> fresh(items) && count < size && size as int == old(size) as int + 1000
      ensures !ok ==> items == old(items) && size == old(size)
    {
      var granted: bool := *;
      if !granted || size > 0xFFFF_FFFF - CACHE_CHUNK_SIZE {
        return false;
      }
      var grown := new CacheItem[size + CACHE_CHUNK_SIZE](i => CacheItem(0, 0, 0));
      forall i | 0 <= i < size {
        grown[i] := items[i];
      }
      items, size := grown, size + CACHE_CHUNK_SIZE;
      return true;
    }

    /** The memmove of set_item: opens a slot at an index, keeping the order of the rest. */
    method ShiftUp(at: uint32)
      requires at <= count < size && items.Length == size as int
      modifies items
      ensures items[..at] == old(items[..at])
      ensures items[at + 1..count + 1] == old(items[at..count])
    {
      var i := count;
      while at < i
        invariant at <= i <= count
        invariant forall k | 0 <= k < i :: items[k] == old(items[k])
        invariant forall k | i <= k < count :: items[k + 1] == old(items[k])
      {
        items[i] := items[i - 1];
        i := i - 1;
      }
    }

    /** Puts a new item at its place, growing first when the array is full. */
    method InsertAt(at: uint32, item: CacheItem) returns (ok: bool)
      requires items.Length == size as int && at <= count <= size
      modifies this, items
      ensures items.Length == size as int && count <= size && version == old(version)
      ensures items == old(items) || fresh(items)
      ensures ok ==> items[..count] == Inserted(old(items[..count]), at as int, item)
      ensures !ok ==> items[..count] == old(items[..count]) && old(count == size)
    {
      if count >= size {
        var grown := Grow();
        if !grown {
          return false;
        }
      }
      ghost var was := items[..count];
      if at < count {
        ShiftUp(at);
      }
      items[at] := item;
      count := count + 1;
      assert items[at + 1..count] == was[at..];
      assert items[..at] == was[..at];
      assert items[..count] == items[..at] + [items[at]] + items[at + 1..count];
      return true;
    }

    /** Writes an id at the current version. Only an id that is new can be refused,
        when the array is full and memory is refused. */
    method SetItem(id: uint64, checksum: uint64) returns (ok: bool)
      requires Valid()
      modifies this, items
      ensures Valid() && (items == old(items) || fresh(items))
      ensures ok ==> Snap() == Put(old(Snap()), id, checksum)
      ensures id in old(Snap().marks) ==> items == old(items) && SamePlaces(old(items[..count]), items[..count], id)
      ensures !ok ==> Snap() == old(Snap()) && id !in old(Snap().marks) && old(count == size)
    {
      var i := LowerBound(id);
      var item := CacheItem(id, checksum, version);
      ghost var was := items[..count];
      assert i < count ==> was[i] == items[i];
      if i < count && items[i].id == id {
        MarksOfUpdate(was, i as int, item);
        items[i] := item;
        assert items[..count] == was[i as int := item];
        return true;
      }
      InsertedSorted(was, i as int, item);
      MarksOfInserted(was, i as int, item);
      MarksAbsent(was, id);
      ok := InsertAt(i, item);
    }

    /** Compares a checksum and marks a live id as seen in this version. */
    method CheckItem(id: uint64, checksum: uint64) returns (state: CacheState)
      requires Valid()
      modifies items
      ensures Valid()
      ensures Snap() == LookedUp(old(Snap()), id)
      ensures SamePlaces(old(items[..count]), items[..count], id)
      ensures state == StateOf(old(Snap()), id, checksum)
    {
      var found, at := FindItem(id);
      if !found || items[at].lastSeen == 0 {
        return CacheNotSet;
      }
      ghost var was := items[..count];
      var item := items[at].(lastSeen := version);
      MarksOfUpdate(was, at as int, item);
      items[at] := item;
      assert items[..count] == was[at as int := item];
      return if item.checksum != checksum then CacheNotSync else CacheOk;
    }

    method Tombstone(id: uint64)
      requires Valid()
      modifies items
      ensures Valid()
      ensures Snap() == Tombstoned(old(Snap()), id)
      ensures SamePlaces(old(items[..count]), items[..count], id)
    {
      var found, at := FindItem(id);
      if found {
        ghost var was := items[..count];
        var item := items[at].(lastSeen := 0);
        MarksOfUpdate(was, at as int, item);
        items[at] := item;
        assert items[..count] == was[at as int := item];
      }
    }

    /** Moves the live items to the front, in order. */
    method Compact() returns (live: uint32)
      requires items.Length == size as int && count <= size
      modifies items
      ensures live <= count && items[..live] == Live(old(items[..count]))
    {
      ghost var was := items[..count];
      var i := 0;
      live := 0;
      while i < count
        modifies items
        invariant live <= i <= count
        invariant items[..live] == Live(was[..i])
        invariant forall k | i <= k < count :: items[k] == was[k]
      {
        assert was[..i + 1][..i] == was[..i];
        if items[i].lastSeen != 0 {
          items[live] := items[i];
          live := live + 1;
        }
        i := i + 1;
      }
      assert was[..count] == was;
    }

    /** Drops the tombstones: compacts in place and zeroes the freed tail. */
    method Prune()
      requires Valid()
      modifies this, items
      ensures Valid() && items == old(items)
      ensures Snap() == Compacted(old(Snap()))
    {
      LiveSorted(items[..count]);
      LiveMarks(items[..count], version);
      var live := Compact();
      var k := live;
      while k < count
        modifies items
        invariant live <= k <= count
        invariant items[..live] == Live(old(items[..count]))
      {
        items[k] := CacheItem(0, 0, 0);
        k := k + 1;
      }
      count := live;
    }

    /** Every mark restarts at 1, tombstones included. */
    method ResetVersion()
      requires items.Length == size as int && count <= size
      modifies this, items
      ensures items == old(items) && size == old(size) && count == old(count) && version == 1
      ensures items[..count] == Reset(old(items[..count]))
    {
      var i := 0;
      while i < count
        modifies items
        invariant i <= count <= size
        invariant forall k | 0 <= k < i :: items[k] == old(items[k]).(lastSeen := 1)
        invariant forall k | i <= k < count :: items[k] == old(items[k])
      {
        items[i] := items[i].(lastSeen := 1);
        i := i + 1;
      }
      version := 1;
    }

    method NextVersion()
      requires Valid()
      modifies this, items
      ensures Valid() && items == old(items)
      ensures Snap() == Bumped(old(Snap()))
    {
      version := version + 1;
      if version == UINT64_MAX {
        ResetMarks(items[..count]);
        ResetVersion();
      }
    }
  }

  function Reset(s: seq<CacheItem>): seq<CacheItem> {
    seq(|s|, i requires 0 <= i < |s| => s[i].(lastSeen := 1))
  }

  lemma {:induction false} ResetMark(s: seq<CacheItem>, id: uint64)
    ensures id in MarksOf(Reset(s)) <==> id in MarksOf(s)
    ensures id in MarksOf(s) ==> MarksOf(Reset(s))[id] == MarksOf(s)[id].(lastSeen := 1)
  {
    if s == [] {
    } else {
      ResetMark(s[..|s| - 1], id);
      assert Reset(s)[..|s| - 1] == Reset(s[..|s| - 1]);
    }
  }

  lemma ResetMarks(s: seq<CacheItem>)
    requires StrictlySorted(s)
    ensures StrictlySorted(Reset(s))
    ensures MarksOf(Reset(s)) == map id | id in MarksOf(s) :: MarksOf(s)[id].(lastSeen := 1)
  {
    forall id ensures
      && (id in MarksOf(Reset(s)) <==> id in MarksOf(s))
      && (id in MarksOf(s) ==> MarksOf(Reset(s))[id] == MarksOf(s)[id].(lastSeen := 1))
    {
      ResetMark(s, id);
    }
  }

  predicate ItemPrunable(item: CacheItem, version: uint64, drift: uint64) {
    drift < version && item.lastSeen > 0 && item.lastSeen <= version - drift
  }

  lemma PrunableAt(s: seq<CacheItem>, version: uint64, drift: uint64, at: nat)
    requires at < |s| && StrictlySorted(s)
    ensures ItemPrunable(s[at], version, drift) <==>
            s[at].id in Prunable(Snapshot(version, MarksOf(s)), drift)
  {
    MarksAt(s, at);
  }

  lemma {:induction false} PositionOf(s: seq<CacheItem>, id: uint64) returns (at: nat)
    requires id in MarksOf(s)
    ensures at < |s| && s[at].id == id
  {
    if s[|s| - 1].id == id {
      at := |s| - 1;
    } else {
      at := PositionOf(s[..|s| - 1], id);
    }
  }

  /** Walks the prunable ids at the version the cache had when the walk began.
      It reads the array as it is now, so the caller may tombstone behind it. */
  class CacheIter {
    const c: Cache
    const version: uint64
    var current: uint32

    constructor (c: Cache)
      ensures this.c == c && version == c.version && current == 0
    {
      this.c, version, current := c, c.version, 0;
    }

    /** The next prunable id at or after the current position, skipping nothing. */
    method NextPrunableId(drift: uint64) returns (found: bool, id: uint64)
      requires c.count as int <= c.items.Length && current <= c.count
      modifies this
      ensures current <= c.count
      ensures found ==>
        && old(current) < current
        && id == c.items[current - 1].id && ItemPrunable(c.items[current - 1], version, drift)
        && forall i | old(current) <= i < current - 1 :: !ItemPrunable(c.items[i], version, drift)
      ensures !found ==>
        forall i | old(current) <= i < c.count :: !ItemPrunable(c.items[i], version, drift)
    {
      if version <= drift {
        return false, 0;
      }
      while current < c.count
        invariant old(current) <= current <= c.count
        invariant forall i | old(current) <= i < current :: !ItemPrunable(c.items[i], version, drift)
      {
        var item := c.items[current];
        current := current + 1;
        if item.lastSeen > 0 && item.lastSeen <= version - drift {
          return true, item.id;
        }
      }
      return false, 0;
    }
  }
}
