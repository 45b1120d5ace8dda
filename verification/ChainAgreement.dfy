/** Cache and table agree: what the cache takes for stored is in the table, with
    the checksum the cache compares to. Which steps keep that, and which do not. */
module ChainAgreement {
  import opened MachineIntegers
  import opened CacheSnapshot
  import opened ItemSync
  import opened Prune
  import opened MissedIds
  import opened ChainCursor
  import opened ChainSpec
  import opened ChainDrift

  /** Every live cached id has its row; if exact, with the very checksum. */
  predicate Agrees(s: Store, exact: bool) {
    forall id | IsLive(s.cache, id) ::
      id in s.rows && (exact ==> s.rows[id] == s.cache.marks[id].checksum)
  }

  // ---- one step each

  /** A row is rewritten while the cache keeps the checksum of the old one. */
  predicate Forgets(s: Store, item: Item) {
    item.outcome.Uncached? && StateOf(s.cache, item.id, item.checksum) == CacheNotSync
  }

  /** Syncing an object keeps the rows there, and the checksums exactly unless it forgets one. */
  lemma ItemAgrees(s: Store, item: Item, exact: bool)
    requires Agrees(s, exact)
    ensures !(exact && Forgets(s, item)) ==> Agrees(SyncedItem(s, item), exact)
    ensures WellFormed(s.cache) && exact && Forgets(s, item) ==> !Agrees(SyncedItem(s, item), exact)
  {
    var r := SyncedItem(s, item);
    if exact && Forgets(s, item) {
      if WellFormed(s.cache) {
        assert IsLive(r.cache, item.id) && r.rows[item.id] == item.checksum;
      }
    } else {
      forall id | IsLive(r.cache, id)
        ensures id in r.rows && (exact ==> r.rows[id] == r.cache.marks[id].checksum)
      {
        assert id != item.id ==> IsLive(s.cache, id);
      }
    }
  }

  /** What an equal checksum means: the object is skipped only if the row has it. */
  lemma SkippedIsStored(s: Store, item: Item)
    requires Agrees(s, true) && StateOf(s.cache, item.id, item.checksum) == CacheOk
    ensures item.id in s.rows && s.rows[item.id] == item.checksum
  {
  }

  /** What forgetting leads to: when the object goes back to what it was, it is
      skipped although the row has something else. */
  lemma ForgottenIsSkipped(s: Store, item: Item)
    requires WellFormed(s.cache) && Agrees(s, true) && Forgets(s, item)
    ensures var known, r := s.cache.marks[item.id].checksum, SyncedItem(s, item);
            StateOf(r.cache, item.id, known) == CacheOk && item.id in r.rows && r.rows[item.id] != known
  {
    assert IsLive(s.cache, item.id);
  }

  /** A pruning, however it ends. */
  lemma PruneAgrees(s: Store, drift: uint64, end: PruneEnd, exact: bool)
    requires Agrees(s, exact)
    ensures Agrees(PrunedStore(s, drift, end), exact)
  {
    var r := PrunedStore(s, drift, end);
    forall id | IsLive(r.cache, id)
      ensures id in r.rows && (exact ==> r.rows[id] == r.cache.marks[id].checksum)
    {
      assert IsLive(s.cache, id);
    }
  }

  /** The version is reset while the cache has a tombstone whose row does not
      agree: it comes back to life. */
  predicate Revives(s: Store, exact: bool) {
    && s.cache.version >= UINT64_MAX - 1
    && exists id :: id in s.cache.marks && s.cache.marks[id].lastSeen == 0 &&
         !(id in s.rows && (exact ==> s.rows[id] == s.cache.marks[id].checksum))
  }

  lemma BumpAgrees(s: Store, exact: bool)
    requires Agrees(s, exact)
    ensures Agrees(s.(cache := CacheSnapshot.Bumped(s.cache)), exact) <==> !Revives(s, exact)
  {
    var r := s.(cache := CacheSnapshot.Bumped(s.cache));
    if Revives(s, exact) {
      var id :| id in s.cache.marks && s.cache.marks[id].lastSeen == 0 &&
        !(id in s.rows && (exact ==> s.rows[id] == s.cache.marks[id].checksum));
      assert IsLive(r.cache, id);
    } else {
      forall id | IsLive(r.cache, id)
        ensures id in r.rows && (exact ==> r.rows[id] == r.cache.marks[id].checksum)
      {
        assert s.cache.marks[id].lastSeen != 0 ==> IsLive(s.cache, id);
      }
    }
  }

  /** A restart makes them agree whatever was before. */
  lemma HydratedAgrees(s: Store, loaded: set<uint64>, exact: bool)
    ensures Agrees(Hydrated(s, loaded), exact)
  {
  }

  /** A restart knows exactly the rows it loaded, as seen in version 1. */
  lemma HydratedIs(s: Store, loaded: set<uint64>, id: uint64)
    ensures var r := Hydrated(s, loaded);
            && r.rows == s.rows && r.cache.version == 1
            && (id in r.cache.marks <==> id in s.rows && id in loaded)
            && (id in r.cache.marks ==> r.cache.marks[id] == Mark(s.rows[id], 1))
  {
  }

  // ---- what a call asks of its answers

  predicate ItemsKept(d: Desk, kind: Kind, items: seq<Item>) {
    forall i | 0 <= i < |items| :: !Forgets(SyncItems(d, kind, items[..i]).0.store, items[i])
  }

  predicate PageKept(d: Desk, phase: Phase, offset: nat, page: Page) {
    page.Page? ==> ItemsKept(d.Log(Requested(phase, offset)), KindOf(phase), page.items)
  }

  predicate PagesKept(d: Desk, phase: Phase, start: int, pages: seq<Page>) {
    forall i | 0 <= i < |pages| ::
      var (s, w) := Walk(d, phase, start, pages[..i]); w.More? ==> PageKept(s, phase, w.offset, pages[i])
  }

  predicate RepliesKept(s: Store, replies: seq<Reply>) {
    forall i | 0 <= i < |replies| && replies[i].answer.Body? ::
      !Forgets(Fetched(s, replies[..i]), Item(replies[i].id, replies[i].answer.checksum, replies[i].answer.outcome))
  }

  predicate CallKept(phase: Phase, d: Desk, a: Answers) {
    if phase == InvoiceMissed then RepliesKept(d.store, a.replies) else PagesKept(d, phase, d.mem.offset, a.pages)
  }

  /** In an iteration no row is rewritten behind the cache's back, where that
      matters, and no tombstone revived. */
  ghost predicate Quiet(st: State, e: Event, exact: bool) {
    e.Iteration? ==>
      var kind, started := KindOf(st.mem.phase), st.Log(CallStarted(st.mem));
      var (called, r) := ChainSync(st, e.env.answers);
      && (exact ==> CallKept(st.mem.phase, started.DeskOf(kind), e.env.answers))
      && (r.bump ==> !Revives(PruneStep(called, kind, r, e.env.prune, e.env.drift).StoreOf(kind), exact))
  }

  // ---- walks and calls

  lemma {:induction false} ItemsAgree(d: Desk, kind: Kind, items: seq<Item>, exact: bool)
    requires Agrees(d.store, exact) && (exact ==> ItemsKept(d, kind, items))
    ensures Agrees(SyncItems(d, kind, items).0.store, exact)
  {
    if items == [] {
    } else {
      var init := items[..|items| - 1];
      forall i | exact && 0 <= i < |init| ensures !Forgets(SyncItems(d, kind, init[..i]).0.store, init[i]) {
        assert init[..i] == items[..i];
      }
      ItemsAgree(d, kind, init, exact);
      ItemAgrees(SyncItems(d, kind, init).0.store, items[|items| - 1], exact);
    }
  }

  lemma PageAgrees(d: Desk, phase: Phase, offset: nat, page: Page, exact: bool)
    requires Agrees(d.store, exact) && (exact ==> PageKept(d, phase, offset, page))
    ensures Agrees(PageStep(d, phase, offset, page).0.store, exact)
  {
    if page.Page? {
      ItemsAgree(d.Log(Requested(phase, offset)), KindOf(phase), page.items, exact);
    }
  }

  lemma {:induction false} WalkAgrees(d: Desk, phase: Phase, start: int, pages: seq<Page>, exact: bool)
    requires Agrees(d.store, exact) && (exact ==> PagesKept(d, phase, start, pages))
    ensures Agrees(Walk(d, phase, start, pages).0.store, exact)
  {
    if pages == [] {
    } else {
      var init := pages[..|pages| - 1];
      forall i | exact && 0 <= i < |init|
        ensures var (s, w) := Walk(d, phase, start, init[..i]); w.More? ==> PageKept(s, phase, w.offset, init[i])
      {
        assert init[..i] == pages[..i];
      }
      WalkAgrees(d, phase, start, init, exact);
      var (s, w) := Walk(d, phase, start, init);
      if w.More? {
        PageAgrees(s, phase, w.offset, pages[|pages| - 1], exact);
      }
    }
  }

  lemma {:induction false} RepliesAgree(s: Store, replies: seq<Reply>, exact: bool)
    requires Agrees(s, exact) && (exact ==> RepliesKept(s, replies))
    ensures Agrees(Fetched(s, replies), exact)
  {
    if replies == [] {
    } else {
      var init, last := replies[..|replies| - 1], replies[|replies| - 1];
      forall i | exact && 0 <= i < |init| && init[i].answer.Body?
        ensures !Forgets(Fetched(s, init[..i]), Item(init[i].id, init[i].answer.checksum, init[i].answer.outcome))
      {
        assert init[..i] == replies[..i];
      }
      RepliesAgree(s, init, exact);
      if last.answer.Body? {
        ItemAgrees(Fetched(s, init), Item(last.id, last.answer.checksum, last.answer.outcome), exact);
      }
    }
  }

  lemma CallAgrees(b: Bench, a: Answers, exact: bool)
    requires Agrees(b.desk.store, exact) && (exact ==> CallKept(b.desk.mem.phase, b.desk, a))
    ensures Agrees(Call(b.desk.mem.phase, b, a).0.desk.store, exact)
  {
    if b.desk.mem.phase == InvoiceMissed {
      RepliesAgree(b.desk.store, a.replies, exact);
    } else {
      WalkAgrees(b.desk, b.desk.mem.phase, b.desk.mem.offset, a.pages, exact);
    }
  }

  // ---- runs

  /** All three resources agree. */
  predicate AllAgree(st: State, exact: bool) {
    Agrees(st.contacts, exact) && Agrees(st.projects, exact) && Agrees(st.invoices, exact)
  }

  lemma CalledAgrees(st: State, a: Answers, exact: bool)
    requires AllAgree(st, exact)
    requires exact ==> CallKept(st.mem.phase, st.Log(CallStarted(st.mem)).DeskOf(KindOf(st.mem.phase)), a)
    ensures AllAgree(ChainSync(st, a).0, exact)
  {
    CallAgrees(st.Log(CallStarted(st.mem)).BenchOf(KindOf(st.mem.phase)), a, exact);
  }

  lemma IterateAgrees(st: State, env: Env, exact: bool)
    requires AllAgree(st, exact) && Quiet(st, Iteration(env), exact)
    ensures AllAgree(Iterate(st, env), exact)
  {
    var kind := KindOf(st.mem.phase);
    CalledAgrees(st, env.answers, exact);
    var (called, r) := ChainSync(st, env.answers);
    var pruned := PruneStep(called, kind, r, env.prune, env.drift);
    PruneAgrees(called.StoreOf(kind), DriftOf(env.drift), env.prune, exact);
    assert AllAgree(pruned, exact);
    BumpAgrees(pruned.StoreOf(kind), exact);
  }

  /** No restart from position i on. */
  predicate SameProcess(events: seq<Event>, i: nat) {
    forall j | i <= j < |events| :: events[j].Iteration?
  }

  lemma SameProcessMore(events: seq<Event>, i: nat)
    requires events != [] && events[|events| - 1].Iteration? && SameProcess(events[..|events| - 1], i)
    ensures SameProcess(events, i)
  {
    forall j | i <= j < |events| ensures events[j].Iteration? {
      assert j < |events| - 1 ==> events[..|events| - 1][j] == events[j];
    }
  }

  /** Every event since the last restart is all right after the events before it. */
  ghost predicate EachSince(events: seq<Event>, ok: (seq<Event>, Event) -> bool) {
    forall i | 0 <= i < |events| && SameProcess(events, i) :: ok(events[..i], events[i])
  }

  lemma EachBefore(events: seq<Event>, ok: (seq<Event>, Event) -> bool)
    requires events != [] && events[|events| - 1].Iteration? && EachSince(events, ok)
    ensures EachSince(events[..|events| - 1], ok) && ok(events[..|events| - 1], events[|events| - 1])
  {
    var init := events[..|events| - 1];
    forall i | 0 <= i < |init| && SameProcess(init, i) ensures ok(init[..i], init[i]) {
      SameProcessMore(events, i);
      assert init[..i] == events[..i];
    }
    assert SameProcess(events, |init|);
  }

  ghost predicate QuietSince(st: State, events: seq<Event>, exact: bool) {
    EachSince(events, (before, e) => Quiet(Final(st, before), e, exact))
  }

  lemma QuietBefore(st: State, events: seq<Event>, exact: bool)
    requires events != [] && events[|events| - 1].Iteration? && QuietSince(st, events, exact)
    ensures QuietSince(st, events[..|events| - 1], exact)
    ensures Quiet(Final(st, events[..|events| - 1]), events[|events| - 1], exact)
  {
    EachBefore(events, (before, e) => Quiet(Final(st, before), e, exact));
  }

  lemma RestartAgrees(st: State, contacts: set<uint64>, projects: set<uint64>, invoices: set<uint64>, exact: bool)
    ensures AllAgree(After(st, Restart(contacts, projects, invoices)), exact)
  {
    HydratedAgrees(st.contacts, contacts, exact);
    HydratedAgrees(st.projects, projects, exact);
    HydratedAgrees(st.invoices, invoices, exact);
  }

  lemma InitialAgrees(st: State, exact: bool)
    requires Initial(st)
    ensures AllAgree(st, exact)
  {
    var c :| st.contacts == Hydrated(st.contacts, c);
    var p :| st.projects == Hydrated(st.projects, p);
    var i :| st.invoices == Hydrated(st.invoices, i);
    RestartAgrees(st, c, p, i, exact);
  }

  /** In every run in which, since the last restart, no row was rewritten while
      the cache kept its old checksum and no reset revived a tombstone, every
      live cached id has its row with the checksum the cache compares to. Of
      these two only the second can cost a live id its row. */
  lemma {:induction false} CacheAndTableAgree(st: State, events: seq<Event>, exact: bool)
    requires IsRun(st, events) && QuietSince(st, events, exact)
    ensures AllAgree(Final(st, events), exact)
  {
    if events == [] {
      InitialAgrees(st, exact);
    } else {
      var init := events[..|events| - 1];
      RunBefore(st, events);
      match events[|events| - 1]
      case Restart(c, p, i) => RestartAgrees(Final(st, init), c, p, i, exact);
      case Iteration(env) =>
        QuietBefore(st, events, exact);
        CacheAndTableAgree(st, init, exact);
        IterateAgrees(Final(st, init), env, exact);
    }
  }

  /** Fewer bumps than it takes to reset the version of any resource. */
  ghost predicate FewBumps(log: seq<Fact>) {
    forall kind: Kind :: Bumps(log, kind, 0) < UINT64_MAX as int - 2
  }

  lemma FewBumpsAreQuiet(st: State, env: Env)
    requires ChainDrift.Invariant(st) && FewBumps(Iterate(st, env).log)
    ensures Quiet(st, Iteration(env), false)
  {
    var kind := KindOf(st.mem.phase);
    CalledFine(st, env.answers);
    var (called, r) := ChainSync(st, env.answers);
    PruneFine(called, kind, r, env.prune, env.drift);
    var pruned := PruneStep(called, kind, r, env.prune, env.drift);
    assert Fine(pruned.StoreOf(kind).cache, kind, pruned.log);
    if r.bump {
      assert Iterate(st, env).log == pruned.log + [Bumped(kind)];
      BumpsMore(pruned.log, Bumped(kind), kind, 0);
    }
  }

  /** In every run short of 2^64 - 3 bumps of a resource, every live cached id has its row. */
  lemma {:induction false} LiveIdsHaveRows(st: State, events: seq<Event>)
    requires IsRun(st, events) && forall i | 0 <= i <= |events| :: FewBumps(Final(st, events[..i]).log)
    ensures AllAgree(Final(st, events), false)
  {
    forall i | 0 <= i < |events| && SameProcess(events, i) ensures Quiet(Final(st, events[..i]), events[i], false) {
      var init, more := events[..i], events[..i + 1];
      assert more[..i] == init && more[i] == events[i];
      RunStart(st, events, i);
      RunFine(st, init);
      FewBumpsAreQuiet(Final(st, init), events[i].env);
    }
    CacheAndTableAgree(st, events, false);
  }

  lemma RunStart(st: State, events: seq<Event>, i: nat)
    requires IsRun(st, events) && i <= |events|
    ensures IsRun(st, events[..i])
  {
    forall j | 0 <= j < i ensures Enabled(Final(st, events[..i][..j]), events[..i][j]) {
      assert events[..i][..j] == events[..j];
    }
  }
}
