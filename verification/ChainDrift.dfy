/** How long an id is safe from pruning after it was listed: in every run, as
    many version bumps as the configured drift. */
module ChainDrift {
  import opened MachineIntegers
  import opened CacheSnapshot
  import opened ItemSync
  import opened Prune
  import opened MissedIds
  import opened ChainCursor
  import opened ChainSpec
  import opened ChainHistory
  import opened ChainFlags

  /** How often the version of a resource was bumped since position i of the log. */
  function Bumps(log: seq<Fact>, kind: Kind, i: nat): nat {
    if |log| <= i then 0
    else Bumps(log[..|log| - 1], kind, i) + (if log[|log| - 1] == Bumped(kind) then 1 else 0)
  }

  /** How many versions ago a live id was last seen. */
  function Age(c: Snapshot, id: uint64): int {
    if IsLive(c, id) then c.version as int - c.marks[id].lastSeen as int else 0
  }

  predicate IsListing(log: seq<Fact>, i: nat, kind: Kind) {
    i < |log| && log[i].Listed? && log[i].kind == kind && NoRestartSince(log, i)
  }

  predicate LastListing(log: seq<Fact>, i: nat, kind: Kind) {
    IsListing(log, i, kind) && forall j | i < j < |log| :: log[j] != log[i]
  }

  /** An id is never older than the bumps since any listing of it in this
      process. Contacts and projects are seen by listings only, so a live one is
      exactly as old as the bumps since its last, unless the version was reset. */
  ghost predicate Seen(c: Snapshot, kind: Kind, log: seq<Fact>) {
    && WellFormed(c)
    && (forall i: nat | IsListing(log, i, kind) :: Age(c, log[i].id) <= Bumps(log, kind, i))
    && c.version as int <= 1 + Bumps(log, kind, 0)
    && (kind != Invoices && Bumps(log, kind, 0) < UINT64_MAX as int - 2 ==>
          forall i: nat | LastListing(log, i, kind) && IsLive(c, log[i].id) ::
            Age(c, log[i].id) == Bumps(log, kind, i))
  }

  /** What must precede a pruning: every id it deletes has, for each listing of
      it in this process, at least drift bumps since. */
  ghost predicate Drifted(before: seq<Fact>, f: Fact) {
    f.Pruned? ==>
      && f.drift != 0
      && forall i: nat | IsListing(before, i, f.kind) && before[i].id in f.ids ::
           f.drift as int <= Bumps(before, f.kind, i)
  }

  ghost predicate Fine(c: Snapshot, kind: Kind, log: seq<Fact>) {
    Seen(c, kind, log) && Justified(log, Drifted)
  }

  lemma BumpsMore(log: seq<Fact>, f: Fact, kind: Kind, i: nat)
    requires i <= |log|
    ensures Bumps(log + [f], kind, i) == Bumps(log, kind, i) + (if f == Bumped(kind) then 1 else 0)
  {
    assert (log + [f])[..|log|] == log;
  }

  function BumpsBy(f: Fact, kind: Kind): nat {
    if f == Bumped(kind) then 1 else 0
  }

  /** How far a fact may age a cache. */
  ghost predicate Aged(c: Snapshot, after: Snapshot, kind: Kind, f: Fact) {
    && WellFormed(after)
    && after.version as int <= c.version as int + BumpsBy(f, kind)
    && (forall id :: Age(after, id) <= Age(c, id) + BumpsBy(f, kind))
    && (f.Listed? && f.kind == kind ==> Age(after, f.id) == 0)
    && (kind != Invoices && (f == Bumped(kind) ==> after.version > c.version) ==>
          forall id | IsLive(after, id) && f != Listed(kind, id) ::
            IsLive(c, id) && Age(after, id) == Age(c, id) + BumpsBy(f, kind))
  }

  /** One more fact, and a cache no older than that fact allows. */
  lemma OneFact(c: Snapshot, after: Snapshot, kind: Kind, log: seq<Fact>, f: Fact)
    requires Fine(c, kind, log) && Aged(c, after, kind, f) && Drifted(log, f)
    requires f == Bumped(kind) && after.version <= c.version ==> c.version >= UINT64_MAX - 1
    ensures Fine(after, kind, log + [f])
  {
    var more := log + [f];
    BumpsMore(log, f, kind, 0);
    forall i: nat | IsListing(more, i, kind) ensures Age(after, more[i].id) <= Bumps(more, kind, i) {
      if i < |log| {
        assert forall j | i <= j < |log| :: more[j] == log[j];
        assert IsListing(log, i, kind);
        BumpsMore(log, f, kind, i);
      }
    }
    if kind != Invoices && Bumps(more, kind, 0) < UINT64_MAX as int - 2 {
      forall i: nat | LastListing(more, i, kind) && IsLive(after, more[i].id)
        ensures Age(after, more[i].id) == Bumps(more, kind, i)
      {
        if i < |log| {
          assert forall j | i <= j < |log| :: more[j] == log[j];
          assert more[|log|] == f;
          assert LastListing(log, i, kind);
          BumpsMore(log, f, kind, i);
        }
      }
    }
    JustifiedOne(log, f, Drifted);
  }

  /** A restart forgets every listing, so any cache will do. */
  lemma AfterBoot(c: Snapshot, kind: Kind, log: seq<Fact>, cursor: Cursor)
    requires WellFormed(c) && c.version == 1 && Justified(log, Drifted)
    ensures Fine(c, kind, log + [Booted(cursor)])
  {
    var more := log + [Booted(cursor)];
    assert more[|log|].Booted?;
    JustifiedOne(log, Booted(cursor), Drifted);
  }

  // ---- the cache of one kind, while the desk may belong to another

  function CacheFor(kind: Kind, worked: Kind, s: Store, other: Snapshot): Snapshot {
    if kind == worked then s.cache else other
  }

  /** A desk of one resource is fine for a resource: its own, or another whose cache stands still. */
  ghost predicate DeskFine(d: Desk, worked: Kind, kind: Kind, other: Snapshot) {
    Fine(CacheFor(kind, worked, d.store, other), kind, d.log)
  }

  /** A fact that is neither a pruning nor a bump, with the desk's cache no older. */
  lemma PlainFact(d: Desk, s: Store, f: Fact, worked: Kind, kind: Kind, other: Snapshot)
    requires DeskFine(d, worked, kind, other) && !f.Pruned? && !f.Bumped?
    requires f.Listed? ==> f.kind == worked
    requires kind == worked ==> Aged(d.store.cache, s.cache, kind, f)
    ensures DeskFine(d.(store := s).Log(f), worked, kind, other)
  {
    OneFact(CacheFor(kind, worked, d.store, other), CacheFor(kind, worked, s, other), kind, d.log, f);
  }

  lemma SyncedAges(s: Store, item: Item, kind: Kind, f: Fact)
    requires WellFormed(s.cache) && !f.Bumped?
    requires f == Listed(kind, item.id) || (kind == Invoices && !f.Listed?)
    requires f.Listed? ==> !item.outcome.Unreadable?
    ensures Aged(s.cache, SyncedItem(s, item).cache, kind, f)
  {
    if !item.outcome.Unreadable? {
      ListedIsSeen(s, item);
    }
  }

  lemma ItemFine(d: Desk, worked: Kind, item: Item, kind: Kind, other: Snapshot)
    requires DeskFine(d, worked, kind, other)
    ensures DeskFine(ItemStep(d, worked, item), worked, kind, other)
  {
    if !item.outcome.Unreadable? {
      if kind == worked {
        SyncedAges(d.store, item, worked, Listed(worked, item.id));
      }
      PlainFact(d, SyncedItem(d.store, item), Listed(worked, item.id), worked, kind, other);
    }
  }

  lemma {:induction false} ItemsFine(d: Desk, worked: Kind, items: seq<Item>, kind: Kind, other: Snapshot)
    requires DeskFine(d, worked, kind, other)
    ensures DeskFine(SyncItems(d, worked, items).0, worked, kind, other)
  {
    if items == [] {
    } else {
      var init := items[..|items| - 1];
      ItemsFine(d, worked, init, kind, other);
      ItemFine(SyncItems(d, worked, init).0, worked, items[|items| - 1], kind, other);
    }
  }

  lemma WritingFine(d: Desk, c: Cursor, save: Save, worked: Kind, kind: Kind, other: Snapshot)
    requires DeskFine(d, worked, kind, other)
    ensures DeskFine(d.(log := d.log + Writing(c, save)), worked, kind, other)
  {
    if save == SaveRefused {
      assert d.log + Writing(c, save) == d.log;
    } else {
      PlainFact(d, d.store, Wrote(c), worked, kind, other);
    }
  }

  lemma AfterSyncedFine(d: Desk, phase: Phase, next: nat, save: Save, kind: Kind, other: Snapshot)
    requires DeskFine(d, KindOf(phase), kind, other)
    ensures DeskFine(AfterSynced(d, phase, next, save).0, KindOf(phase), kind, other)
  {
    if next <= INT_MAX {
      WritingFine(d, Cursor(phase, next), save, KindOf(phase), kind, other);
    }
  }

  lemma PageEndFine(d: Desk, phase: Phase, offset: nat, empty: bool, save: Save, kind: Kind, other: Snapshot)
    requires DeskFine(d, KindOf(phase), kind, other)
    ensures DeskFine(PageEnd(d, phase, offset, empty, save).0, KindOf(phase), kind, other)
  {
    var f := if empty then Ended(phase, offset) else Synced(phase, offset);
    PlainFact(d, d.store, f, KindOf(phase), kind, other);
    if !empty {
      AfterSyncedFine(d.Log(f), phase, offset + LIST_LIMIT, save, kind, other);
    }
  }

  lemma PageFine(d: Desk, phase: Phase, offset: nat, page: Page, kind: Kind, other: Snapshot)
    requires DeskFine(d, KindOf(phase), kind, other)
    ensures DeskFine(PageStep(d, phase, offset, page).0, KindOf(phase), kind, other)
  {
    PlainFact(d, d.store, Requested(phase, offset), KindOf(phase), kind, other);
    if page.Page? {
      var asked := d.Log(Requested(phase, offset));
      ItemsFine(asked, KindOf(phase), page.items, kind, other);
      var (s, failed) := SyncItems(asked, KindOf(phase), page.items);
      if !failed {
        PageEndFine(s, phase, offset, page.items == [], page.save, kind, other);
      }
    }
  }

  lemma {:induction false} WalkFine(d: Desk, phase: Phase, start: int, pages: seq<Page>, kind: Kind, other: Snapshot)
    requires DeskFine(d, KindOf(phase), kind, other)
    ensures DeskFine(Walk(d, phase, start, pages).0, KindOf(phase), kind, other)
  {
    if pages == [] {
    } else {
      var init := pages[..|pages| - 1];
      WalkFine(d, phase, start, init, kind, other);
      var (s, w) := Walk(d, phase, start, init);
      if w.More? {
        PageFine(s, phase, w.offset, pages[|pages| - 1], kind, other);
      }
    }
  }

  lemma ReplyFine(d: Desk, r: Reply, kind: Kind, other: Snapshot)
    requires DeskFine(d, Invoices, kind, other)
    ensures DeskFine(d.(store := Replied(d.store, r)).Log(Asked(r)), Invoices, kind, other)
  {
    if r.answer.Body? && kind == Invoices {
      SyncedAges(d.store, Item(r.id, r.answer.checksum, r.answer.outcome), Invoices, Asked(r));
    }
    PlainFact(d, Replied(d.store, r), Asked(r), Invoices, kind, other);
  }

  lemma FetchStepMore(d: Desk, replies: seq<Reply>)
    requires replies != []
    ensures var s, last := FetchStep(d, replies[..|replies| - 1]), replies[|replies| - 1];
            FetchStep(d, replies) == s.(store := Replied(s.store, last)).Log(Asked(last))
  {
    assert AskedFacts(replies) == AskedFacts(replies[..|replies| - 1]) + [Asked(replies[|replies| - 1])];
  }

  lemma {:induction false} RepliesFine(d: Desk, replies: seq<Reply>, kind: Kind, other: Snapshot)
    requires DeskFine(d, Invoices, kind, other)
    ensures DeskFine(FetchStep(d, replies), Invoices, kind, other)
  {
    if replies == [] {
      assert d.log + AskedFacts(replies) == d.log;
    } else {
      RepliesFine(d, replies[..|replies| - 1], kind, other);
      ReplyFine(FetchStep(d, replies[..|replies| - 1]), replies[|replies| - 1], kind, other);
      FetchStepMore(d, replies);
    }
  }

  lemma AdvanceFine(d: Desk, phase: Phase, save: Save, worked: Kind, kind: Kind, other: Snapshot)
    requires DeskFine(d, worked, kind, other)
    ensures DeskFine(Advance(d, phase, save).0, worked, kind, other)
  {
    PlainFact(d, d.store, Entered(phase), worked, kind, other);
    WritingFine(d.Log(Entered(phase)), Cursor(phase, 0), save, worked, kind, other);
  }

  lemma CallFine(b: Bench, a: Answers, kind: Kind, other: Snapshot)
    requires DeskFine(b.desk, KindOf(b.desk.mem.phase), kind, other)
    ensures DeskFine(Call(b.desk.mem.phase, b, a).0.desk, KindOf(b.desk.mem.phase), kind, other)
  {
    var phase := b.desk.mem.phase;
    if phase == InvoiceMissed {
      RepliesFine(b.desk, a.replies, kind, other);
      var d := FetchStep(b.desk, a.replies);
      PlainFact(d, d.store, MissedDone, Invoices, kind, other);
      AdvanceFine(d.Log(MissedDone), ContactActive, a.save, Invoices, kind, other);
    } else {
      WalkFine(b.desk, phase, b.desk.mem.offset, a.pages, kind, other);
      var d := Walk(b.desk, phase, b.desk.mem.offset, a.pages).0;
      forall next ensures DeskFine(Advance(d, next, a.save).0, KindOf(phase), kind, other) {
        AdvanceFine(d, next, a.save, KindOf(phase), kind, other);
      }
    }
  }

  /** Every resource is fine. */
  ghost predicate Invariant(st: State) {
    forall kind: Kind :: Fine(st.StoreOf(kind).cache, kind, st.log)
  }

  lemma CalledFine(st: State, a: Answers)
    requires Invariant(st)
    ensures Invariant(ChainSync(st, a).0)
  {
    var started := st.Log(CallStarted(st.mem));
    var worked := KindOf(st.mem.phase);
    var b := started.BenchOf(worked);
    forall kind: Kind ensures Fine(ChainSync(st, a).0.StoreOf(kind).cache, kind, ChainSync(st, a).0.log) {
      var other := st.StoreOf(kind).cache;
      OneFact(other, other, kind, st.log, CallStarted(st.mem));
      assert DeskFine(b.desk, worked, kind, other);
      CallFine(b, a, kind, other);
    }
  }

  /** What a pruning deletes is old enough, whatever the drift and however it ends. */
  lemma PruneDrifted(c: Snapshot, kind: Kind, log: seq<Fact>, end: PruneEnd, drift: uint64)
    requires Fine(c, kind, log) && drift != 0
    ensures Drifted(log, Pruned(kind, Deleted(c, drift, end), drift))
  {
    var ids := Deleted(c, drift, end);
    forall i: nat | IsListing(log, i, kind) && log[i].id in ids ensures drift as int <= Bumps(log, kind, i) {
      assert IsPrunable(c, drift, log[i].id);
      assert Age(c, log[i].id) >= drift as int;
    }
  }

  lemma PruneFineFor(st: State, worked: Kind, end: PruneEnd, drift: uint64, kind: Kind)
    requires Invariant(st) && drift != 0
    ensures var d := PruneDesk(st.DeskOf(worked), worked, end, drift);
            Fine(st.WithDesk(worked, d).StoreOf(kind).cache, kind, d.log)
  {
    var s := st.StoreOf(worked);
    assert Fine(s.cache, worked, st.log) && Fine(st.StoreOf(kind).cache, kind, st.log);
    PruneDrifted(s.cache, worked, st.log, end, drift);
    var after := CacheFor(kind, worked, PrunedStore(s, drift, end), st.StoreOf(kind).cache);
    OneFact(st.StoreOf(kind).cache, after, kind, st.log, Pruned(worked, Deleted(s.cache, drift, end), drift));
  }

  lemma PruneFine(st: State, worked: Kind, r: Result, end: PruneEnd, drift: cint)
    requires Invariant(st)
    ensures Invariant(PruneStep(st, worked, r, end, drift))
  {
    if !r.failed && r.prune {
      forall kind: Kind ensures
        Fine(PruneStep(st, worked, r, end, drift).StoreOf(kind).cache, kind, PruneStep(st, worked, r, end, drift).log)
      {
        PruneFineFor(st, worked, end, DriftOf(drift), kind);
      }
    }
  }

  lemma BumpFine(st: State, worked: Kind, r: Result)
    requires Invariant(st)
    ensures Invariant(BumpStep(st, worked, r))
  {
    if r.bump {
      var s := st.StoreOf(worked);
      var bumped := s.(cache := CacheSnapshot.Bumped(s.cache));
      var done := BumpStep(st, worked, r);
      forall kind: Kind ensures Fine(done.StoreOf(kind).cache, kind, done.log) {
        assert Fine(st.StoreOf(kind).cache, kind, st.log);
        assert done.StoreOf(kind).cache == CacheFor(kind, worked, bumped, st.StoreOf(kind).cache);
        OneFact(st.StoreOf(kind).cache, done.StoreOf(kind).cache, kind, st.log, Bumped(worked));
      }
    }
  }

  lemma RestartFine(st: State, contacts: set<uint64>, projects: set<uint64>, invoices: set<uint64>)
    requires Justified(st.log, Drifted)
    ensures Invariant(After(st, Restart(contacts, projects, invoices)))
  {
    var r := After(st, Restart(contacts, projects, invoices));
    forall kind: Kind ensures Fine(r.StoreOf(kind).cache, kind, r.log) {
      AfterBoot(r.StoreOf(kind).cache, kind, st.log, st.saved);
    }
  }

  lemma IterateFine(st: State, env: Env)
    requires Invariant(st)
    ensures Invariant(Iterate(st, env))
  {
    CalledFine(st, env.answers);
    var kind := KindOf(st.mem.phase);
    var (called, r) := ChainSync(st, env.answers);
    PruneFine(called, kind, r, env.prune, env.drift);
    BumpFine(PruneStep(called, kind, r, env.prune, env.drift), kind, r);
  }

  lemma InitialFine(st: State)
    requires Initial(st)
    ensures Invariant(st)
  {
    forall kind: Kind ensures Fine(st.StoreOf(kind).cache, kind, st.log) {
      assert IsHydrated(st.StoreOf(kind));
      assert [] + [Booted(st.saved)] == st.log;
      AfterBoot(st.StoreOf(kind).cache, kind, [], st.saved);
    }
  }

  lemma {:induction false} RunFine(st: State, events: seq<Event>)
    requires IsRun(st, events)
    ensures Invariant(Final(st, events))
  {
    if events == [] {
      InitialFine(st);
    } else {
      var init := events[..|events| - 1];
      RunBefore(st, events);
      RunFine(st, init);
      match events[|events| - 1]
      case Iteration(env) => IterateFine(Final(st, init), env);
      case Restart(c, p, i) =>
        assert Fine(Final(st, init).StoreOf(Contacts).cache, Contacts, Final(st, init).log);
        RestartFine(Final(st, init), c, p, i);
    }
  }

  /** In every run, no pruning deletes an id that this process listed and whose
      resource was bumped fewer times since than the drift. This holds across
      the reset of the version counter, and failed calls count as bumps only
      where they bump. */
  lemma {:induction false} ListedIdsOutliveDrift(st: State, events: seq<Event>)
    requires IsRun(st, events)
    ensures Justified(Final(st, events).log, Drifted)
  {
    RunFine(st, events);
    assert Fine(Final(st, events).StoreOf(Contacts).cache, Contacts, Final(st, events).log);
  }
}
