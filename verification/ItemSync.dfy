/** One resource of the chain: its id cache and its table, and what syncing one
    listed object does to both. The three resources share this shape
    (src/bxobjects/contact.c:421-561, src/bxobjects/project.c:222-290,
    src/bxobjects/invoice.c:219-430). */
module ItemSync {
  import opened MachineIntegers
  import opened CacheSnapshot
  import opened IdsCache

  /** How the database and the allocator answered for one object. */
  datatype Outcome =
    | Stored(fails: bool)        // the row was written, the cache took the id; then an error may end the page
    | Uncached(fails: bool)      // the row was written; the cache could not grow, or was left alone after
                                 // the positions of an invoice failed; an error may end the page
    | Skipped                    // a parent is missing, or the write was refused with a warning
    | Errored                    // an error that ends the page before the row is written
    | Unreadable(fails: bool)    // no memory to decode the object; the caller may or may not be told

  datatype Item = Item(id: uint64, checksum: uint64, outcome: Outcome)

  datatype Store = Store(cache: Snapshot, rows: map<uint64, uint64>)

  /** INSERT IGNORE when the id is new to the cache, else UPDATE. None: nothing written. */
  datatype Written = NotWritten | Written(rows: map<uint64, uint64>)

  function WriteRow(rows: map<uint64, uint64>, state: CacheState, id: uint64, checksum: uint64): Written {
    if state == CacheNotSet then
      (if id in rows then NotWritten else Written(rows[id := checksum]))
    else if id in rows then Written(rows[id := checksum])
    else Written(rows)
  }

  function SyncedItem(s: Store, item: Item): Store {
    if item.outcome.Unreadable? then s else
      var state := StateOf(s.cache, item.id, item.checksum);
      var seen := LookedUp(s.cache, item.id);
      var write := WriteRow(s.rows, state, item.id, item.checksum);
      if state == CacheOk || write.NotWritten? then s.(cache := seen)
      else match item.outcome
        case Stored(_) => Store(Put(seen, item.id, item.checksum), write.rows)
        case Uncached(_) => Store(seen, write.rows)
        case _ => s.(cache := seen)
  }

  /** The item reaches its row: it is new or changed, and the server takes it. */
  predicate WritesRow(s: Store, item: Item) {
    var state := StateOf(s.cache, item.id, item.checksum);
    state != CacheOk && WriteRow(s.rows, state, item.id, item.checksum).Written?
  }

  predicate ItemFails(s: Store, item: Item) {
    match item.outcome
    case Unreadable(fails) => fails
    case Stored(fails) => fails && WritesRow(s, item)
    case Uncached(fails) => fails && WritesRow(s, item)
    case Errored => StateOf(s.cache, item.id, item.checksum) != CacheOk
    case _ => false
  }

  /** After an id is listed it is absent, a tombstone, or seen in this very version. */
  lemma ListedIsSeen(s: Store, item: Item)
    requires !item.outcome.Unreadable?
    ensures var c := SyncedItem(s, item).cache;
            c.version == s.cache.version &&
            (IsLive(c, item.id) ==> c.marks[item.id].lastSeen == c.version)
  {
  }

  // ---- what syncing means for table and cache, whatever its branches

  /** Cache and table agree on an id, and both know it or neither does. */
  predicate AgreesAt(s: Store, id: uint64) {
    if IsLive(s.cache, id) then id in s.rows && s.rows[id] == s.cache.marks[id].checksum else id !in s.rows
  }

  /** The row holds this very content, and the cache knows it as seen in this version. */
  predicate HasStored(s: Store, item: Item) {
    && item.id in s.rows && s.rows[item.id] == item.checksum
    && item.id in s.cache.marks && s.cache.marks[item.id] == Mark(item.checksum, s.cache.version)
  }

  /** An object answered as stored, new or changed or not, is in its row, where
      cache and table agreed on it. */
  lemma StoredIsInRow(s: Store, item: Item)
    requires item.outcome.Stored? && AgreesAt(s, item.id)
    ensures HasStored(SyncedItem(s, item), item)
  {
  }

  /** Two states of a resource that agree on one id. */
  predicate SameAt(a: Store, b: Store, id: uint64) {
    && a.cache.version == b.cache.version
    && (id in a.cache.marks <==> id in b.cache.marks)
    && (id in a.cache.marks ==> a.cache.marks[id] == b.cache.marks[id])
    && (id in a.rows <==> id in b.rows) && (id in a.rows ==> a.rows[id] == b.rows[id])
  }

  /** Syncing one object leaves every other alone. */
  lemma OthersStay(s: Store, item: Item, id: uint64)
    requires id != item.id
    ensures SameAt(s, SyncedItem(s, item), id)
  {
  }

  /** Without an answer that something was stored, no row and no checksum changes. */
  lemma NothingStored(s: Store, item: Item)
    requires item.outcome.Skipped? || item.outcome.Errored? || item.outcome.Unreadable?
    ensures var r := SyncedItem(s, item);
            && r.rows == s.rows && r.cache.marks.Keys == s.cache.marks.Keys
            && forall id | id in s.cache.marks :: r.cache.marks[id].checksum == s.cache.marks[id].checksum
  {
  }

  /** An object that is as the cache knows it is marked as seen, and nothing else
      happens: no row is written, no error ends the page. */
  lemma UnchangedIsSkipped(s: Store, item: Item)
    requires IsLive(s.cache, item.id) && s.cache.marks[item.id].checksum == item.checksum && !item.outcome.Unreadable?
    ensures var r := SyncedItem(s, item);
            && r.rows == s.rows && r.cache == Put(s.cache, item.id, item.checksum) && !ItemFails(s, item)
  {
  }

  /** A row written behind the cache's back: the row is new, the cache is not. */
  lemma UncachedIsInRow(s: Store, item: Item)
    requires item.outcome.Uncached? && AgreesAt(s, item.id)
    ensures var r := SyncedItem(s, item);
            && item.id in r.rows && r.rows[item.id] == item.checksum
            && r.cache == LookedUp(s.cache, item.id)
  {
  }

  /** A row that the cache does not know stays as it is, and stays unknown. */
  lemma DuplicateIsIgnored(s: Store, item: Item)
    requires !IsLive(s.cache, item.id) && item.id in s.rows
    ensures SyncedItem(s, item) == s
  {
  }

  /** A row that is lost behind the cache's back is not written again, however the
      object changes. */
  lemma LostRowStaysLost(s: Store, item: Item)
    requires IsLive(s.cache, item.id) && item.id !in s.rows
    ensures SyncedItem(s, item).rows == s.rows
  {
  }

  /** An object that is new or changed ends its page exactly when it was answered with an error. */
  lemma FailsAsAnswered(s: Store, item: Item)
    requires AgreesAt(s, item.id) && !(IsLive(s.cache, item.id) && s.cache.marks[item.id].checksum == item.checksum)
    ensures ItemFails(s, item) <==>
      || item == Item(item.id, item.checksum, Errored)
      || item.outcome in {Stored(true), Uncached(true), Unreadable(true)}
  {
  }

  /** A database table: a map from id to stored checksum. */
  class Table {
    var rows: map<uint64, uint64>

    constructor (rows: map<uint64, uint64>)
      ensures this.rows == rows
    {
      this.rows := rows;
    }

    /** DELETE ... WHERE id = :id. The server may refuse. */
    method Delete(id: uint64) returns (ok: bool)
      modifies this
      ensures rows == if ok then old(rows) - {id} else old(rows)
    {
      ok := *;
      if ok {
        rows := rows - {id};
      }
    }

    method Write(state: CacheState, id: uint64, checksum: uint64) returns (ok: bool)
      requires state != CacheOk
      modifies this
      ensures var w := WriteRow(old(rows), state, id, checksum);
              ok == w.Written? && rows == if ok then w.rows else old(rows)
    {
      if state == CacheNotSet && id in rows {
        return false;
      }
      if state == CacheNotSet || id in rows {
        rows := rows[id := checksum];
      }
      return true;
    }
  }

  ghost function StoreOf(cache: Cache, table: Table): Store
    reads cache, cache.items, table
    requires cache.count as int <= cache.items.Length
  {
    Store(cache.Snap(), table.rows)
  }

  /** Syncs one listed object. done is the object with what really happened to it:
      the same as asked, except that the cache may have been unable to grow. */
  method SyncItem(cache: Cache, table: Table, item: Item) returns (done: Item, failed: bool)
    requires cache.Valid()
    modifies cache, cache.items, table
    ensures cache.Valid() && (cache.items == old(cache.items) || fresh(cache.items))
    ensures done == item || (item.outcome.Stored? && done == item.(outcome := Uncached(item.outcome.fails)) &&
                              item.id !in old(cache.Snap()).marks && old(cache.count == cache.size))
    ensures StoreOf(cache, table) == SyncedItem(old(StoreOf(cache, table)), done)
    ensures failed == ItemFails(old(StoreOf(cache, table)), done)
    ensures done.outcome.Stored? && AgreesAt(old(StoreOf(cache, table)), item.id) ==> HasStored(StoreOf(cache, table), item)
    ensures item.id in old(cache.Snap().marks) ==>
      cache.items == old(cache.items) && SamePlaces(old(cache.items[..cache.count]), cache.items[..cache.count], item.id)
  {
    done, failed := item, false;
    if item.outcome.Unreadable? {
      return done, item.outcome.fails;
    }
    var state := cache.CheckItem(item.id, item.checksum);
    if state == CacheOk {
      return;
    }
    if item.outcome == Errored {
      failed := true;
    } else if item.outcome != Skipped {
      var written := table.Write(state, item.id, item.checksum);
      if written {
        failed := item.outcome.fails;
        if item.outcome.Stored? {
          var kept := cache.SetItem(item.id, item.checksum);
          if !kept {
            done := item.(outcome := Uncached(failed));
          }
        }
      }
    }
  }
}
