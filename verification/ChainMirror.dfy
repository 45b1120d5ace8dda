/** What was listed is stored: after an iteration, every object of a synced page
    that was answered as stored is in its row with its content, in every run
    (src/bx_walk.c:58-89, src/bxobjects/contact.c:431-542). */
module ChainMirror {
  import opened MachineIntegers
  import opened CacheSnapshot
  import opened ItemSync
  import opened Prune
  import opened MissedIds
  import opened ChainCursor
  import opened ChainSpec
  import opened ChainAgreement
  import ChainFlags
  import opened ChainVanish

  // ---- one page

  lemma SameAtTwice(a: Store, b: Store, c: Store, id: uint64)
    requires SameAt(a, b, id) && SameAt(b, c, id)
    ensures SameAt(a, c, id)
  {
  }

  /** Rows with other ids leave an object alone. */
  lemma {:induction false} OtherItemsStay(d: Desk, kind: Kind, items: seq<Item>, id: uint64)
    requires forall item | item in items :: item.id != id
    ensures SameAt(d.store, SyncItems(d, kind, items).0.store, id)
  {
    if items == [] {
    } else {
      var init, last := items[..|items| - 1], items[|items| - 1];
      OtherItemsStay(d, kind, init, id);
      var s := SyncItems(d, kind, init).0;
      assert last in items;
      OthersStay(s.store, last, id);
      SameAtTwice(d.store, s.store, SyncedItem(s.store, last), id);
    }
  }

  /** The one object of its id in a page. */
  predicate IsOnly(items: seq<Item>, k: nat) {
    k < |items| && forall j | 0 <= j < |items| && j != k :: items[j].id != items[k].id
  }

  lemma {:induction false} ItemsStore(d: Desk, kind: Kind, items: seq<Item>, k: nat)
    requires IsOnly(items, k) && items[k].outcome.Stored? && AgreesAt(d.store, items[k].id)
    requires !SyncItems(d, kind, items).1
    ensures HasStored(SyncItems(d, kind, items).0.store, items[k])
  {
    var init, last := items[..|items| - 1], items[|items| - 1];
    var s := SyncItems(d, kind, init).0;
    if k == |items| - 1 {
      OtherItemsStay(d, kind, init, last.id);
      StoredIsInRow(s.store, last);
    } else {
      ItemsStore(d, kind, init, k);
      assert init[k] == items[k];
      OthersStay(s.store, last, items[k].id);
    }
  }

  /** No row of a synced page failed, each on what the rows before it had left. */
  lemma {:induction false} NoRowFailed(d: Desk, kind: Kind, items: seq<Item>, k: nat)
    requires k < |items| && !SyncItems(d, kind, items).1
    ensures !ItemFails(SyncItems(d, kind, items[..k]).0.store, items[k])
  {
    var init := items[..|items| - 1];
    if k == |items| - 1 {
      assert items[..k] == init;
    } else {
      NoRowFailed(d, kind, init, k);
      assert items[..k] == init[..k] && items[k] == init[k];
    }
  }

  /** A page that was not synced stopped at a row that failed. */
  lemma {:induction false} SomeRowFailed(d: Desk, kind: Kind, items: seq<Item>) returns (k: nat)
    requires SyncItems(d, kind, items).1
    ensures k < |items| && ItemFails(SyncItems(d, kind, items[..k]).0.store, items[k])
    ensures SyncItems(d, kind, items).0 == SyncItems(d, kind, items[..k + 1]).0
  {
    var init := items[..|items| - 1];
    if SyncItems(d, kind, init).1 {
      k := SomeRowFailed(d, kind, init);
      assert items[..k] == init[..k] && items[..k + 1] == init[..k + 1] && items[k] == init[k];
    } else {
      k := |items| - 1;
      assert items[..k] == init && items[..k + 1] == items;
    }
  }

  // ---- a walk

  /** Page p of a walk was reached, came, was not empty, and all its rows were synced. */
  predicate PageSynced(d: Desk, phase: Phase, start: int, pages: seq<Page>, p: nat) {
    && p < |pages| && pages[p].Page? && pages[p].items != []
    && var (s, w) := Walk(d, phase, start, pages[..p]);
       w.More? && !SyncItems(s.Log(Requested(phase, w.offset)), KindOf(phase), pages[p].items).1
  }

  predicate PageLacks(page: Page, id: uint64) {
    page.Page? ==> forall item | item in page.items :: item.id != id
  }

  /** The object is on no other page of the walk, and once on its own. */
  predicate IsOnlyOne(pages: seq<Page>, p: nat, k: nat) {
    && p < |pages| && pages[p].Page? && IsOnly(pages[p].items, k)
    && forall q | 0 <= q < |pages| && q != p :: PageLacks(pages[q], pages[p].items[k].id)
  }

  lemma PageStore(d: Desk, phase: Phase, offset: nat, page: Page)
    ensures PageStep(d, phase, offset, page).0.store ==
      if page.PageLost? then d.store
      else SyncItems(d.Log(Requested(phase, offset)), KindOf(phase), page.items).0.store
  {
  }

  lemma OtherPageStays(d: Desk, phase: Phase, offset: nat, page: Page, id: uint64)
    requires PageLacks(page, id)
    ensures SameAt(d.store, PageStep(d, phase, offset, page).0.store, id)
  {
    PageStore(d, phase, offset, page);
    if page.Page? {
      OtherItemsStay(d.Log(Requested(phase, offset)), KindOf(phase), page.items, id);
    }
  }

  lemma {:induction false} OtherPagesStay(d: Desk, phase: Phase, start: int, pages: seq<Page>, id: uint64)
    requires forall q | 0 <= q < |pages| :: PageLacks(pages[q], id)
    ensures SameAt(d.store, Walk(d, phase, start, pages).0.store, id)
  {
    if pages == [] {
    } else {
      var init, last := pages[..|pages| - 1], pages[|pages| - 1];
      OtherPagesStay(d, phase, start, init, id);
      var (s, w) := Walk(d, phase, start, init);
      if w.More? {
        OtherPageStays(s, phase, w.offset, last, id);
        SameAtTwice(d.store, s.store, PageStep(s, phase, w.offset, last).0.store, id);
      }
    }
  }

  /** The objects of a synced page are stored when the walk is over. */
  lemma {:induction false} WalkStores(d: Desk, phase: Phase, start: int, pages: seq<Page>, p: nat, k: nat)
    requires PageSynced(d, phase, start, pages, p) && IsOnlyOne(pages, p, k)
    requires pages[p].items[k].outcome.Stored? && AgreesAt(d.store, pages[p].items[k].id)
    ensures HasStored(Walk(d, phase, start, pages).0.store, pages[p].items[k])
  {
    var init, last, item := pages[..|pages| - 1], pages[|pages| - 1], pages[p].items[k];
    var (s, w) := Walk(d, phase, start, init);
    if p == |pages| - 1 {
      assert pages[..p] == init;
      OtherPagesStay(d, phase, start, init, item.id);
      ItemsStore(s.Log(Requested(phase, w.offset)), KindOf(phase), last.items, k);
      PageStore(s, phase, w.offset, last);
    } else {
      assert init[..p] == pages[..p] && init[p] == pages[p];
      WalkStores(d, phase, start, init, p, k);
      if w.More? {
        OtherPageStays(s, phase, w.offset, last, item.id);
      }
    }
  }

  /** Where a walk stands after some pages, as long as it goes on. */
  lemma {:induction false} WalkOffset(d: Desk, phase: Phase, start: nat, pages: seq<Page>)
    ensures var w := Walk(d, phase, start, pages).1; w.More? ==> w.offset == start + LIST_LIMIT * |pages|
  {
    if pages == [] {
    } else {
      WalkOffset(d, phase, start, pages[..|pages| - 1]);
    }
  }

  /** What a page adds to the log: a Synced fact exactly when all its rows were synced. */
  lemma PageLogs(d: Desk, phase: Phase, offset: nat, page: Page, i: nat)
    requires var r := PageStep(d, phase, offset, page).0; |d.log| <= i < |r.log| && r.log[i].Synced?
    ensures PageStep(d, phase, offset, page).0.log[i] == Synced(phase, offset)
    ensures page.Page? && page.items != [] && !SyncItems(d.Log(Requested(phase, offset)), KindOf(phase), page.items).1
  {
    if page.Page? {
      NoneSynced(d.Log(Requested(phase, offset)), KindOf(phase), page.items);
    }
  }

  lemma {:induction false} NoneSynced(d: Desk, kind: Kind, items: seq<Item>)
    ensures var r := SyncItems(d, kind, items).0; d.log <= r.log && forall i | |d.log| <= i < |r.log| :: !r.log[i].Synced?
  {
    if items == [] {
    } else {
      NoneSynced(d, kind, items[..|items| - 1]);
    }
  }

  /** Every Synced fact a walk logs is that of one of its pages. */
  lemma {:induction false} SyncedPage(d: Desk, phase: Phase, start: nat, pages: seq<Page>, i: nat) returns (p: nat)
    requires var r := Walk(d, phase, start, pages).0; |d.log| <= i < |r.log| && r.log[i].Synced?
    ensures PageSynced(d, phase, start, pages, p)
    ensures Walk(d, phase, start, pages).0.log[i] == Synced(phase, start + LIST_LIMIT * p)
  {
    var init, last := pages[..|pages| - 1], pages[|pages| - 1];
    var (s, w) := Walk(d, phase, start, init);
    WalkLeaves(d, phase, start, init, 0);
    if w.More? && i >= |s.log| {
      p := |pages| - 1;
      WalkOffset(d, phase, start, init);
      PageLogs(s, phase, w.offset, last, i);
    } else {
      if w.More? {
        PageLeaves(s, phase, w.offset, last, 0);
      }
      p := SyncedPage(d, phase, start, init, i);
      assert init[..p] == pages[..p];
    }
  }

  // ---- a call by id

  /** An invoice that a by-id call fetched and stored is in its row. */
  lemma {:induction false} FetchedIsStored(s: Store, replies: seq<Reply>, k: nat)
    requires forall i, j | 0 <= i < j < |replies| :: replies[i].id < replies[j].id
    requires k < |replies| && replies[k].answer.Body? && replies[k].answer.outcome.Stored? && AgreesAt(s, replies[k].id)
    ensures HasStored(Fetched(s, replies), Item(replies[k].id, replies[k].answer.checksum, replies[k].answer.outcome))
  {
    var init, last := replies[..|replies| - 1], replies[|replies| - 1];
    if k == |replies| - 1 {
      OtherRepliesStay(s, init, last.id);
      StoredIsInRow(Fetched(s, init), Item(last.id, last.answer.checksum, last.answer.outcome));
    } else {
      FetchedIsStored(s, init, k);
      OneReplyStays(Fetched(s, init), last, replies[k].id);
    }
  }

  lemma OneReplyStays(s: Store, r: Reply, id: uint64)
    requires r.id != id
    ensures SameAt(s, Replied(s, r), id)
  {
    if r.answer.Body? {
      OthersStay(s, Item(r.id, r.answer.checksum, r.answer.outcome), id);
    }
  }

  lemma {:induction false} OtherRepliesStay(s: Store, replies: seq<Reply>, id: uint64)
    requires forall r | r in replies :: r.id != id
    ensures SameAt(s, Fetched(s, replies), id)
  {
    if replies == [] {
    } else {
      var init, last := replies[..|replies| - 1], replies[|replies| - 1];
      assert last in replies;
      OtherRepliesStay(s, init, id);
      OneReplyStays(Fetched(s, init), last, id);
      SameAtTwice(s, Fetched(s, init), Fetched(s, replies), id);
    }
  }

  // ---- an iteration

  /** The row holds this content, and the cache knows it. */
  predicate IsStored(s: Store, item: Item) {
    && item.id in s.rows && s.rows[item.id] == item.checksum
    && IsLive(s.cache, item.id) && s.cache.marks[item.id].checksum == item.checksum
  }

  /** What was just seen survives every pruning. */
  lemma PruneKeepsSeen(s: Store, item: Item, drift: uint64, end: PruneEnd)
    requires HasStored(s, item) && WellFormed(s.cache) && drift != 0
    ensures HasStored(PrunedStore(s, drift, end), item)
  {
    assert !IsPrunable(s.cache, drift, item.id);
    assert item.id !in Deleted(s.cache, drift, end);
  }

  lemma BumpKeeps(s: Store, item: Item)
    requires HasStored(s, item) && WellFormed(s.cache)
    ensures IsStored(s, item) && IsStored(s.(cache := CacheSnapshot.Bumped(s.cache)), item)
  {
  }

  lemma RestKeeps(called: State, kind: Kind, r: Result, end: PruneEnd, drift: cint, item: Item)
    requires HasStored(called.StoreOf(kind), item) && WellFormed(called.StoreOf(kind).cache)
    ensures IsStored(BumpStep(PruneStep(called, kind, r, end, drift), kind, r).StoreOf(kind), item)
  {
    PruneKeepsSeen(called.StoreOf(kind), item, DriftOf(drift), end);
    BumpKeeps(called.StoreOf(kind), item);
    BumpKeeps(PrunedStore(called.StoreOf(kind), DriftOf(drift), end), item);
  }

  /** A call that walks leaves the store of its walk, and logs Synced facts in it only. */
  lemma CallIsWalk(st: State, a: Answers)
    requires st.mem.phase != InvoiceMissed
    ensures var d := st.Log(CallStarted(st.mem)).DeskOf(KindOf(st.mem.phase));
            var (w, r) := (Walk(d, st.mem.phase, st.mem.offset, a.pages).0, ChainSync(st, a).0);
            && r.StoreOf(KindOf(st.mem.phase)) == w.store && w.log <= r.log
            && forall i | |w.log| <= i < |r.log| :: !r.log[i].Synced?
  {
  }

  lemma RestLogsNone(s: State, env: Env, i: nat)
    requires |s.log| <= i < |Iterate(s, env).log| && Iterate(s, env).log[i].Synced?
    ensures i < |ChainSync(s, env.answers).0.log| && ChainSync(s, env.answers).0.log[i] == Iterate(s, env).log[i]
  {
    var p, b := IterateAdds(s, env);
    var called := ChainSync(s, env.answers).0;
    assert forall j | |called.log| <= j < |Iterate(s, env).log| :: Iterate(s, env).log[j] in p || Iterate(s, env).log[j] in b;
  }

  /** The page whose Synced fact an iteration logged. */
  lemma SyncedByCall(s: State, env: Env, i: nat) returns (p: nat)
    requires s.mem.phase != InvoiceMissed && 0 <= s.mem.offset
    requires |s.log| <= i < |Iterate(s, env).log| && Iterate(s, env).log[i].Synced?
    ensures var d := s.Log(CallStarted(s.mem)).DeskOf(KindOf(s.mem.phase));
            PageSynced(d, s.mem.phase, s.mem.offset, env.answers.pages, p)
    ensures Iterate(s, env).log[i] == Synced(s.mem.phase, s.mem.offset + LIST_LIMIT * p)
  {
    var d := s.Log(CallStarted(s.mem)).DeskOf(KindOf(s.mem.phase));
    RestLogsNone(s, env, i);
    CallIsWalk(s, env.answers);
    WalkLeaves(d, s.mem.phase, s.mem.offset, env.answers.pages, 0);
    p := SyncedPage(d, s.mem.phase, s.mem.offset, env.answers.pages, i);
  }

  lemma StoredByCall(s: State, env: Env, p: nat, k: nat)
    requires var phase, kind := s.mem.phase, KindOf(s.mem.phase);
             && phase != InvoiceMissed && ChainDrift.Invariant(s)
             && PageSynced(s.Log(CallStarted(s.mem)).DeskOf(kind), phase, s.mem.offset, env.answers.pages, p)
             && IsOnlyOne(env.answers.pages, p, k) && env.answers.pages[p].items[k].outcome.Stored?
             && AgreesAt(s.StoreOf(kind), env.answers.pages[p].items[k].id)
    ensures IsStored(Iterate(s, env).StoreOf(KindOf(s.mem.phase)), env.answers.pages[p].items[k])
  {
    var kind := KindOf(s.mem.phase);
    var (called, r) := ChainSync(s, env.answers);
    CallIsWalk(s, env.answers);
    WalkStores(s.Log(CallStarted(s.mem)).DeskOf(kind), s.mem.phase, s.mem.offset, env.answers.pages, p, k);
    ChainDrift.CalledFine(s, env.answers);
    assert ChainDrift.Fine(called.StoreOf(kind).cache, kind, called.log);
    RestKeeps(called, kind, r, env.prune, env.drift, env.answers.pages[p].items[k]);
  }

  /** An answer that, for an object that is new or changed, ends its page. */
  predicate IsError(o: Outcome) {
    o == Errored || o == Stored(true) || o == Uncached(true) || o == Unreadable(true)
  }

  /** An object that is listed once, and was cached or in no row before. */
  ghost predicate IsPlain(pages: seq<Page>, p: nat, k: nat, before: Store) {
    IsOnlyOne(pages, p, k) && (IsLive(before.cache, pages[p].items[k].id) || pages[p].items[k].id !in before.rows)
  }

  /** Every object of a page that was answered as stored is in its row with its
      content, and cached; and none that is new or changed was answered with an error. */
  ghost predicate PageIsStored(pages: seq<Page>, p: nat, before: Store, after: Store) {
    && p < |pages| && pages[p].Page?
    && (forall k: nat | IsPlain(pages, p, k, before) && pages[p].items[k].outcome.Stored? ::
          IsStored(after, pages[p].items[k]))
    && (forall k: nat | IsPlain(pages, p, k, before) && IsError(pages[p].items[k].outcome) ::
          var item := pages[p].items[k];
          item.outcome != Unreadable(true) && IsLive(before.cache, item.id) && before.cache.marks[item.id].checksum == item.checksum)
  }

  /** A row of a synced page did not fail on what was there before the page. */
  lemma ItemFine(d: Desk, kind: Kind, items: seq<Item>, k: nat)
    requires IsOnly(items, k) && AgreesAt(d.store, items[k].id) && !SyncItems(d, kind, items).1
    ensures !ItemFails(d.store, items[k])
  {
    NoRowFailed(d, kind, items, k);
    OtherItemsStay(d, kind, items[..k], items[k].id);
    SameFails(d.store, SyncItems(d, kind, items[..k]).0.store, items[k]);
  }

  lemma SameFails(a: Store, b: Store, item: Item)
    requires SameAt(a, b, item.id)
    ensures ItemFails(a, item) <==> ItemFails(b, item)
  {
  }

  lemma WalkItemFine(d: Desk, phase: Phase, start: int, pages: seq<Page>, p: nat, k: nat)
    requires PageSynced(d, phase, start, pages, p) && IsOnlyOne(pages, p, k)
    requires AgreesAt(d.store, pages[p].items[k].id)
    ensures !ItemFails(d.store, pages[p].items[k])
  {
    var (s, w) := Walk(d, phase, start, pages[..p]);
    OtherPagesStay(d, phase, start, pages[..p], pages[p].items[k].id);
    ItemFine(s.Log(Requested(phase, w.offset)), KindOf(phase), pages[p].items, k);
    SameFails(d.store, s.store, pages[p].items[k]);
  }

  lemma IterationStores(s: State, env: Env, i: nat) returns (p: nat)
    requires s.mem.phase != InvoiceMissed && 0 <= s.mem.offset
    requires ChainDrift.Invariant(s) && Agrees(s.StoreOf(KindOf(s.mem.phase)), true)
    requires |s.log| <= i < |Iterate(s, env).log| && Iterate(s, env).log[i].Synced?
    ensures Iterate(s, env).log[i] == Synced(s.mem.phase, s.mem.offset + LIST_LIMIT * p)
    ensures var kind := KindOf(s.mem.phase);
            PageIsStored(env.answers.pages, p, s.StoreOf(kind), Iterate(s, env).StoreOf(kind))
  {
    p := SyncedByCall(s, env, i);
    var pages, kind, now := env.answers.pages, KindOf(s.mem.phase), s.StoreOf(KindOf(s.mem.phase));
    forall k: nat | IsPlain(pages, p, k, now) && pages[p].items[k].outcome.Stored?
      ensures IsStored(Iterate(s, env).StoreOf(kind), pages[p].items[k])
    {
      StoredByCall(s, env, p, k);
    }
    forall k: nat | IsPlain(pages, p, k, now) && IsError(pages[p].items[k].outcome)
      ensures var item := pages[p].items[k];
              item.outcome != Unreadable(true) && IsLive(now.cache, item.id) && now.cache.marks[item.id].checksum == item.checksum
    {
      WalkItemFine(s.Log(CallStarted(s.mem)).DeskOf(kind), s.mem.phase, s.mem.offset, pages, p, k);
      ErrorIsSkipped(now, pages[p].items[k]);
    }
  }

  lemma ErrorIsSkipped(s: Store, item: Item)
    requires AgreesAt(s, item.id) && IsError(item.outcome) && !ItemFails(s, item)
    ensures item.outcome != Unreadable(true) && IsLive(s.cache, item.id) && s.cache.marks[item.id].checksum == item.checksum
  {
    if !(IsLive(s.cache, item.id) && s.cache.marks[item.id].checksum == item.checksum) {
      FailsAsAnswered(s, item);
    }
  }

  /** In every run in which cache and table agree, and for every page that the next
      iteration logs as synced: when the iteration is over, its objects are stored,
      whether they were new, changed or as before. */
  lemma {:induction false} SyncedPageIsStored(st: State, events: seq<Event>, env: Env, i: nat) returns (p: nat)
    requires IsRun(st, events) && QuietSince(st, events, true) && Final(st, events).mem.phase != InvoiceMissed
    requires |Final(st, events).log| <= i < |Iterate(Final(st, events), env).log|
    requires Iterate(Final(st, events), env).log[i].Synced?
    ensures var s := Final(st, events);
            var kind, r := KindOf(s.mem.phase), Iterate(s, env);
            && r.log[i] == Synced(s.mem.phase, s.mem.offset + LIST_LIMIT * p)
            && PageIsStored(env.answers.pages, p, s.StoreOf(kind), r.StoreOf(kind))
  {
    ChainFlags.PruningIsEarned(st, events);
    ChainDrift.RunFine(st, events);
    CacheAndTableAgree(st, events, true);
    p := IterationStores(Final(st, events), env, i);
  }
}
