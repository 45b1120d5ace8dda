/** Going through the prunable ids of a sorted array from front to back while
    the entries already passed are being rewritten. Shared by pruning and by the
    by-id check of invoices. */
module Sweep {
  import opened MachineIntegers
  import opened CacheSnapshot
  import opened IdsCache

  function Below(s: Snapshot, drift: uint64, bound: int): set<uint64> {
    set id | id in Prunable(s, drift) && id as int < bound
  }

  /** Ids between two bounds that hold no prunable item do not move the bound. */
  lemma SameBelow(items: seq<CacheItem>, version: uint64, drift: uint64, from: nat, to: nat, low: int, high: int)
    requires StrictlySorted(items) && from <= to <= |items|
    requires low <= high
    requires forall i | 0 <= i < from :: items[i].id as int < low
    requires forall i | from <= i < to :: !ItemPrunable(items[i], version, drift)
    requires forall i | to <= i < |items| :: high <= items[i].id as int
    ensures Below(Snapshot(version, MarksOf(items)), drift, low) ==
            Below(Snapshot(version, MarksOf(items)), drift, high)
  {
    var s := Snapshot(version, MarksOf(items));
    forall id | id in Below(s, drift, high) ensures id as int < low {
      var at := PositionOf(items, id);
      PrunableAt(items, version, drift, at);
    }
  }

  /** How far a sweep has come: the items from at on are untouched, those before
      kept their id, and bound separates the ids of the two parts. */
  ghost predicate Swept(was: seq<CacheItem>, now: seq<CacheItem>, at: nat, bound: int) {
    && |now| == |was| && at <= |was| && 0 <= bound <= UINT64_MAX as int + 1
    && StrictlySorted(was)
    && (forall i | 0 <= i < |was| :: now[i].id == was[i].id)
    && (forall i | at <= i < |was| :: now[i] == was[i])
    && (forall i | 0 <= i < at :: was[i].id as int < bound)
    && (forall i | at <= i < |was| :: bound <= was[i].id as int)
  }

  /** Whether the next prunable item at or after from is at. */
  ghost predicate IsNext(items: seq<CacheItem>, version: uint64, drift: uint64, from: nat, at: nat) {
    && from <= at < |items| && ItemPrunable(items[at], version, drift)
    && forall i | from <= i < at :: !ItemPrunable(items[i], version, drift)
  }

  ghost predicate NoneLeft(items: seq<CacheItem>, version: uint64, drift: uint64, from: nat) {
    forall i | from <= i < |items| :: !ItemPrunable(items[i], version, drift)
  }

  /** What the next prunable item adds to the ids below the bound. */
  lemma SweepOne(was: seq<CacheItem>, now: seq<CacheItem>, after: seq<CacheItem>,
                 version: uint64, drift: uint64, from: nat, at: nat, low: int)
    requires Swept(was, now, from, low) && IsNext(now, version, drift, from, at)
    requires SamePlaces(now, after, was[at].id)
    ensures var s, id := Snapshot(version, MarksOf(was)), was[at].id;
            && now[at] == was[at]
            && low <= id as int
            && id in Prunable(s, drift)
            && Below(s, drift, id as int) == Below(s, drift, low)
            && Below(s, drift, id as int + 1) == Below(s, drift, low) + {id}
            && Swept(was, after, at + 1, id as int + 1)
  {
    var s, id := Snapshot(version, MarksOf(was)), was[at].id;
    PrunableAt(was, version, drift, at);
    SameBelow(was, version, drift, from, at, low, id as int);
    assert Below(s, drift, id as int + 1) == Below(s, drift, id as int) + {id};
  }

  lemma SweepEnd(was: seq<CacheItem>, now: seq<CacheItem>, version: uint64, drift: uint64, from: nat, low: int)
    requires Swept(was, now, from, low) && NoneLeft(now, version, drift, from)
    ensures var s := Snapshot(version, MarksOf(was));
            Below(s, drift, low) == Prunable(s, drift)
  {
    var s := Snapshot(version, MarksOf(was));
    SameBelow(was, version, drift, from, |was|, low, UINT64_MAX as int + 1);
    assert Below(s, drift, UINT64_MAX as int + 1) == Prunable(s, drift);
  }
}
