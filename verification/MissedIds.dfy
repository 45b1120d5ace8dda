/** The by-id check of invoices that a list walk did not show
    (src/bxobjects/invoice.c:469-499). */
module MissedIds {
  import opened MachineIntegers
  import opened CacheSnapshot
  import opened IdsCache
  import opened ItemSync
  import opened Sweep

  /** What GET by id answered: 404, or 200 with a body. The body is taken to be
      about the id that was asked for. */
  datatype Answer = NotFound | Body(checksum: uint64, outcome: Outcome)

  datatype Reply = Reply(id: uint64, answer: Answer)

  /** The cached ids this version has not shown yet. */
  function Due(s: Snapshot): set<uint64> {
    Prunable(s, 1)
  }

  function Replied(s: Store, r: Reply): Store {
    match r.answer
    case NotFound => s
    case Body(checksum, outcome) => SyncedItem(s, Item(r.id, checksum, outcome))
  }

  predicate ReplyFails(s: Store, r: Reply) {
    r.answer.Body? && ItemFails(s, Item(r.id, r.answer.checksum, r.answer.outcome))
  }

  function Fetched(s: Store, replies: seq<Reply>): Store {
    if replies == [] then s
    else Replied(Fetched(s, replies[..|replies| - 1]), replies[|replies| - 1])
  }

  ghost function IdsOf(replies: seq<Reply>): set<uint64> {
    set r | r in replies :: r.id
  }

  /** Which reply sequences a call can see: due ids, each at most once, in
      ascending order; a call that succeeds has asked for every one of them. */
  ghost predicate Possible(s: Snapshot, replies: seq<Reply>, ok: bool) {
    && (forall i, j | 0 <= i < j < |replies| :: replies[i].id < replies[j].id)
    && IdsOf(replies) <= Due(s)
    && (ok ==> IdsOf(replies) == Due(s))
  }

  /** A body there was no memory to decode: the one way the decoder fails. */
  predicate IsUndecoded(r: Reply) {
    r.answer.Body? && r.answer.outcome.Unreadable?
  }

  /** A reply that leaves the id unseen: 404, or a body that was not decoded. */
  predicate LeavesUnseen(r: Reply) {
    r.answer.NotFound? || IsUndecoded(r)
  }

  lemma {:induction false} FetchedVersion(s: Store, replies: seq<Reply>)
    ensures Fetched(s, replies).cache.version == s.cache.version
  {
    if replies == [] {
    } else {
      FetchedVersion(s, replies[..|replies| - 1]);
      RepliedMark(Fetched(s, replies[..|replies| - 1]), replies[|replies| - 1], replies[|replies| - 1].id);
    }
  }

  /** One reply: only the id it shows is marked. */
  lemma RepliedMark(s: Store, r: Reply, id: uint64)
    ensures var c := Replied(s, r).cache;
            && c.version == s.cache.version
            && (if r.id != id || LeavesUnseen(r)
                then (id in c.marks <==> id in s.cache.marks) && (id in c.marks ==> c.marks[id] == s.cache.marks[id])
                else !IsLive(c, id) || c.marks[id].lastSeen == c.version)
  {
  }

  /** An id after the replies: not live, seen in this version, or exactly as
      before with no reply that would have shown it. */
  lemma {:induction false} FetchedMark(s: Store, replies: seq<Reply>, id: uint64)
    requires forall i, j | 0 <= i < j < |replies| :: replies[i].id < replies[j].id
    ensures var c := Fetched(s, replies).cache;
            || !IsLive(c, id)
            || c.marks[id].lastSeen == c.version
            || (&& id in s.cache.marks && c.marks[id] == s.cache.marks[id]
                && forall r | r in replies && r.id == id :: LeavesUnseen(r))
  {
    if replies == [] {
    } else {
      FetchedMark(s, replies[..|replies| - 1], id);
      RepliedMark(Fetched(s, replies[..|replies| - 1]), replies[|replies| - 1], id);
      assert replies == replies[..|replies| - 1] + [replies[|replies| - 1]];
    }
  }

  /** Replies that do not show an id leave its mark alone. */
  lemma {:induction false} UnseenKept(s: Store, replies: seq<Reply>, id: uint64)
    requires forall r | r in replies && r.id == id :: LeavesUnseen(r)
    ensures var c := Fetched(s, replies).cache;
            (id in c.marks <==> id in s.cache.marks) && (id in c.marks ==> c.marks[id] == s.cache.marks[id])
  {
    if replies == [] {
    } else {
      assert replies[|replies| - 1] in replies;
      UnseenKept(s, replies[..|replies| - 1], id);
      RepliedMark(Fetched(s, replies[..|replies| - 1]), replies[|replies| - 1], id);
    }
  }

  /** After a successful call, whatever the drift, an id is prunable iff it was
      before and its GET in this very call was answered without showing it. */
  lemma PrunableIffUnseen(s: Store, replies: seq<Reply>, drift: uint64, id: uint64)
    requires Possible(s.cache, replies, true) && drift != 0
    ensures id in Prunable(Fetched(s, replies).cache, drift) <==>
      id in Prunable(s.cache, drift) && exists r :: r in replies && r.id == id && LeavesUnseen(r)
  {
    FetchedVersion(s, replies);
    if id in Prunable(Fetched(s, replies).cache, drift) {
      FetchedMark(s, replies, id);
      assert id in Due(s.cache);
      var r :| r in replies && r.id == id;
      assert LeavesUnseen(r);
    }
    if exists r :: r in replies && r.id == id && LeavesUnseen(r) {
      UnseenKept(s, replies, id);
    }
  }

  /** What came back for one GET. */
  datatype Response = Lost | Answered(answer: Answer)

  /** The network: any answer at all. */
  method GetInvoice(id: uint64) returns (response: Response) {
    response := *;
  }

  /** The due ids below a bound have been asked for, in order. */
  ghost predicate AskedBelow(s: Snapshot, replies: seq<Reply>, bound: int) {
    && (forall i, j | 0 <= i < j < |replies| :: replies[i].id < replies[j].id)
    && IdsOf(replies) == Below(s, 1, bound)
  }

  lemma AskedOne(s: Snapshot, replies: seq<Reply>, r: Reply, bound: int)
    requires AskedBelow(s, replies, bound)
    requires Below(s, 1, r.id as int + 1) == Below(s, 1, bound) + {r.id}
    requires bound <= r.id as int
    ensures AskedBelow(s, replies + [r], r.id as int + 1)
  {
    forall i | 0 <= i < |replies| ensures replies[i].id < r.id {
      assert replies[i].id in IdsOf(replies);
    }
    assert forall x :: x in replies + [r] <==> x in replies || x == r;
  }

  lemma FetchedMore(s: Store, replies: seq<Reply>, r: Reply)
    ensures Fetched(s, replies + [r]) == Replied(Fetched(s, replies), r)
  {
    assert (replies + [r])[..|replies|] == replies;
  }

  /** Fetches one due invoice by id and syncs what comes back. */
  method FetchOne(cache: Cache, table: Table, id: uint64) returns (asked: bool, reply: Reply, ok: bool)
    requires cache.Valid() && id in cache.Snap().marks
    modifies cache, cache.items, table
    ensures cache.Valid() && cache.items == old(cache.items)
    ensures SamePlaces(old(cache.items[..cache.count]), cache.items[..cache.count], id)
    ensures StoreOf(cache, table) ==
      if asked then Replied(old(StoreOf(cache, table)), reply) else old(StoreOf(cache, table))
    ensures reply.id == id
    ensures ok <==> asked && !ReplyFails(old(StoreOf(cache, table)), reply)
  {
    reply := Reply(id, NotFound);
    var response := GetInvoice(id);
    if response.Lost? {
      return false, reply, false;
    }
    match response.answer
    case NotFound =>
      return true, reply, true;
    case Body(checksum, outcome) =>
      var done, failed := SyncItem(cache, table, Item(id, checksum, outcome));
      return true, Reply(id, Body(checksum, done.outcome)), !failed;
  }

  /** Advances to the next due id and fetches it. */
  method FetchNext(iter: CacheIter, table: Table) returns (found: bool, asked: bool, reply: Reply, ok: bool)
    requires iter.c.Valid() && iter.current <= iter.c.count
    modifies iter, iter.c, iter.c.items, table
    ensures iter.c.Valid() && iter.c.items == old(iter.c.items) && iter.current <= iter.c.count
    ensures !found ==> NoneLeft(old(iter.c.items[..iter.c.count]), iter.version, 1, old(iter.current) as int)
    ensures found ==>
      && old(iter.current) < iter.current
      && IsNext(old(iter.c.items[..iter.c.count]), iter.version, 1, old(iter.current) as int, iter.current as int - 1)
      && reply.id == old(iter.c.items[..iter.c.count])[iter.current - 1].id
      && SamePlaces(old(iter.c.items[..iter.c.count]), iter.c.items[..iter.c.count], reply.id)
    ensures StoreOf(iter.c, table) ==
      if found && asked then Replied(old(StoreOf(iter.c, table)), reply) else old(StoreOf(iter.c, table))
    ensures found ==> (ok <==> asked && !ReplyFails(old(StoreOf(iter.c, table)), reply))
  {
    var id: uint64;
    found, id := iter.NextPrunableId(1);
    if found {
      MarksAt(iter.c.items[..iter.c.count], iter.current as int - 1);
      asked, reply, ok := FetchOne(iter.c, table, id);
    } else {
      asked, reply, ok := false, Reply(id, NotFound), false;
    }
  }

  /** No reply failed so far. */
  ghost predicate NoneFails(s: Store, replies: seq<Reply>) {
    forall i | 0 <= i < |replies| :: !ReplyFails(Fetched(s, replies[..i]), replies[i])
  }

  lemma NoneFailsMore(s: Store, replies: seq<Reply>, r: Reply)
    requires NoneFails(s, replies)
    ensures NoneFails(s, replies + [r]) <==> !ReplyFails(Fetched(s, replies), r)
  {
    var more := replies + [r];
    assert forall i | 0 <= i < |replies| :: more[i] == replies[i] && more[..i] == replies[..i];
    assert more[..|replies|] == replies && more[|replies|] == r;
  }

  /** How far a call has come: see Swept, AskedBelow and Fetched. */
  ghost predicate Fetching(was: seq<CacheItem>, now: seq<CacheItem>, at: nat, bound: int,
                           before: Store, current: Store, replies: seq<Reply>) {
    && before.cache.marks == MarksOf(was)
    && Swept(was, now, at, bound)
    && AskedBelow(before.cache, replies, bound)
    && current == Fetched(before, replies) && NoneFails(before, replies)
  }

  lemma FetchingStart(was: seq<CacheItem>, before: Store)
    requires StrictlySorted(was) && before.cache.marks == MarksOf(was)
    ensures Fetching(was, was, 0, 0, before, before, [])
  {
    assert Below(before.cache, 1, 0) == {};
  }

  lemma FetchingOne(was: seq<CacheItem>, now: seq<CacheItem>, after: seq<CacheItem>, from: nat, at: nat, low: int,
                    before: Store, current: Store, replies: seq<Reply>, reply: Reply)
    requires Fetching(was, now, from, low, before, current, replies)
    requires IsNext(now, before.cache.version, 1, from, at)
    requires reply.id == now[at].id && SamePlaces(now, after, reply.id)
    ensures IdsOf(replies) != Due(before.cache)
    ensures AskedBelow(before.cache, replies + [reply], reply.id as int + 1)
    ensures Replied(current, reply) == Fetched(before, replies + [reply])
    ensures NoneFails(before, replies + [reply]) <==> !ReplyFails(current, reply)
    ensures !ReplyFails(current, reply) ==>
      Fetching(was, after, at + 1, reply.id as int + 1, before, Replied(current, reply), replies + [reply])
  {
    SweepOne(was, now, after, before.cache.version, 1, from, at, low);
    AskedOne(before.cache, replies, reply, low);
    FetchedMore(before, replies, reply);
    NoneFailsMore(before, replies, reply);
    assert reply.id in Due(before.cache) && reply.id !in Below(before.cache, 1, low);
  }

  /** How a call ended: well exactly when every due id was asked for and none failed. */
  ghost predicate FetchEnds(before: Store, replies: seq<Reply>, ok: bool) {
    && Possible(before.cache, replies, ok)
    && (ok <==> IdsOf(replies) == Due(before.cache) && NoneFails(before, replies))
  }

  lemma FetchingStops(before: Store, replies: seq<Reply>, bound: int)
    requires AskedBelow(before.cache, replies, bound)
    requires IdsOf(replies) != Due(before.cache) || !NoneFails(before, replies)
    ensures FetchEnds(before, replies, false)
  {
    assert Below(before.cache, 1, bound) <= Due(before.cache);
  }

  lemma FetchingEnds(was: seq<CacheItem>, now: seq<CacheItem>, at: nat, bound: int,
                     before: Store, current: Store, replies: seq<Reply>)
    requires Fetching(was, now, at, bound, before, current, replies) && NoneLeft(now, before.cache.version, 1, at)
    ensures FetchEnds(before, replies, true) && current == Fetched(before, replies)
  {
    SweepEnd(was, now, before.cache.version, 1, at, bound);
  }

  /** One turn of the loop; going tells whether there is another. */
  method FetchTurn(iter: CacheIter, table: Table, asked: seq<Reply>,
                   ghost was: seq<CacheItem>, ghost before: Store, ghost bound: int)
    returns (going: bool, ok: bool, replies: seq<Reply>, ghost after: int)
    requires iter.c.Valid() && iter.current <= iter.c.count && iter.version == before.cache.version
    requires Fetching(was, iter.c.items[..iter.c.count], iter.current as int, bound, before, StoreOf(iter.c, table), asked)
    modifies iter, iter.c, iter.c.items, table
    ensures iter.c.Valid() && iter.c.items == old(iter.c.items) && iter.current <= iter.c.count
    ensures going ==>
      && old(iter.current) < iter.current && iter.c.count == old(iter.c.count)
      && Fetching(was, iter.c.items[..iter.c.count], iter.current as int, after, before, StoreOf(iter.c, table), replies)
    ensures !going ==> FetchEnds(before, replies, ok) && StoreOf(iter.c, table) == Fetched(before, replies)
  {
    ghost var from, now, current := iter.current as int, iter.c.items[..iter.c.count], StoreOf(iter.c, table);
    var found, got, reply, fine := FetchNext(iter, table);
    if !found {
      FetchingEnds(was, now, from, bound, before, current, asked);
      return false, true, asked, bound;
    }
    FetchingOne(was, now, iter.c.items[..iter.c.count], from, iter.current as int - 1, bound, before, current, asked, reply);
    if !got {
      FetchingStops(before, asked, bound);
      return false, false, asked, bound;
    }
    going, ok, replies, after := fine, false, asked + [reply], reply.id as int + 1;
    if !fine {
      FetchingStops(before, replies, after);
    }
  }

  /** Asks for every due id, smallest first, until one cannot be had or synced. */
  method FetchMissed(cache: Cache, table: Table) returns (ok: bool, replies: seq<Reply>)
    requires cache.Valid()
    modifies cache, cache.items, table
    ensures cache.Valid() && cache.items == old(cache.items)
    ensures FetchEnds(old(StoreOf(cache, table)), replies, ok)
    ensures StoreOf(cache, table) == Fetched(old(StoreOf(cache, table)), replies)
  {
    ghost var was, before, bound := cache.items[..cache.count], StoreOf(cache, table), 0;
    FetchingStart(was, before);
    var iter := new CacheIter(cache);
    var going := true;
    ok, replies := false, [];
    while going
      invariant iter.c == cache && cache.Valid() && cache.items == old(cache.items) && iter.current <= cache.count
      invariant iter.version == before.cache.version
      invariant going ==> Fetching(was, cache.items[..cache.count], iter.current as int, bound,
                                   before, StoreOf(cache, table), replies)
      invariant !going ==> FetchEnds(before, replies, ok) && StoreOf(cache, table) == Fetched(before, replies)
      decreases going, cache.count - iter.current
    {
      going, ok, replies, bound := FetchTurn(iter, table, replies, was, before, bound);
    }
  }
}
