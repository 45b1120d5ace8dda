/** The chain thread itself: the statics of src/bx_chain.c, the page walk of
    src/bx_walk.c with the chain's page callback, and the loop body of
    src/main.c, each refining its function in ChainSpec. What the world answers
    is chosen freely inside the methods and handed back as ghost values. */
module ChainThread {
  import opened MachineIntegers
  import opened Options
  import opened CacheSnapshot
  import opened IdsCache
  import opened ItemSync
  import opened Prune
  import opened MissedIds
  import opened ChainCursor
  import opened ChainSpec
  import opened ChainCalls

  /** The rows of _configuration the chain reads: its own, and the three older ones. */
  class Configuration {
    var chain: Option<string>
    const step: Option<string>
    const offset: cint
    const pass: cint

    constructor (chain: Option<string>, step: Option<string>, offset: cint, pass: cint)
      ensures this.chain == chain && this.step == step && this.offset == offset && this.pass == pass
    {
      this.chain, this.step, this.offset, this.pass := chain, step, offset, pass;
    }

    ghost function Cursor(): Cursor
      reads this
    {
      Decoded(chain, step, offset, pass)
    }

    /** Prints the cursor and stores the row. The server may refuse, and the
        caller may be told so although the row was written. */
    method Put(c: Cursor) returns (save: Save)
      requires IsNormal(c)
      modifies this
      ensures Cursor() == if save == SaveRefused then old(Cursor()) else c
    {
      var value := Printed(c);
      if |value| >= 64 {
        return SaveRefused;
      }
      save := *;
      if save != SaveRefused {
        chain := Some(value);
        RoundTrip(c, step, offset, pass);
      }
    }
  }

  /** The network: any page at all, or none. */
  method GetPage(phase: Phase, offset: nat) returns (rows: Option<seq<Item>>) {
    rows := *;
  }

  /** A SELECT of every row, in some order, into an empty cache. It may not be
      answered; and an id is left out exactly when the array was full and had no
      memory to grow. */
  method Hydrate(cache: Cache, table: Table) returns (ghost loaded: set<uint64>, ghost answered: bool, ghost refused: set<uint64>)
    requires cache.Valid() && cache.Snap() == EMPTY
    modifies cache, cache.items
    ensures cache.Valid() && (cache.items == old(cache.items) || fresh(cache.items))
    ensures StoreOf(cache, table) == Hydrated(old(StoreOf(cache, table)), loaded)
    ensures loaded == if answered then table.rows.Keys - refused else {}
    ensures refused <= table.rows.Keys
  {
    loaded, refused := {}, {};
    var reply: bool := *;
    answered := reply;
    if !reply {
      return;
    }
    var rest := table.rows.Keys;
    while rest != {}
      invariant cache.Valid() && (cache.items == old(cache.items) || fresh(cache.items))
      invariant rest <= table.rows.Keys && loaded <= table.rows.Keys - rest
      invariant refused <= table.rows.Keys && loaded + rest == table.rows.Keys - refused && refused !! rest
      invariant StoreOf(cache, table) == Hydrated(old(StoreOf(cache, table)), loaded)
      decreases rest
    {
      var id :| id in rest;
      rest := rest - {id};
      ghost var full := cache.count == cache.size;
      var kept := cache.SetItem(id, table.rows[id]);
      if kept {
        loaded := loaded + {id};
      } else {
        assert full;
        refused := refused + {id};
      }
    }
  }

  class Thread {
    const config: Configuration
    const contactCache: Cache
    const projectCache: Cache
    const invoiceCache: Cache
    const contactTable: Table
    const projectTable: Table
    const invoiceTable: Table

    var cursor: Cursor
    var contactFromZero: bool
    var invoiceFromZero: bool
    ghost var log: seq<Fact>

    ghost function Repr(): set<object>
      reads contactCache, projectCache, invoiceCache
    {
      {this, config, contactCache, projectCache, invoiceCache,
       contactCache.items, projectCache.items, invoiceCache.items,
       contactTable, projectTable, invoiceTable}
    }

    ghost predicate Valid()
      reads Repr()
    {
      && contactCache != projectCache && contactCache != invoiceCache && projectCache != invoiceCache
      && contactCache.items != projectCache.items
      && contactCache.items != invoiceCache.items
      && projectCache.items != invoiceCache.items
      && contactTable != projectTable && contactTable != invoiceTable && projectTable != invoiceTable
      && contactCache.Valid() && projectCache.Valid() && invoiceCache.Valid()
      && IsNormal(cursor)
    }

    ghost function View(): State
      requires Valid()
      reads Repr()
    {
      State(cursor, config.Cursor(), contactFromZero, invoiceFromZero,
            ItemSync.StoreOf(contactCache, contactTable),
            ItemSync.StoreOf(projectCache, projectTable),
            ItemSync.StoreOf(invoiceCache, invoiceTable), log)
    }

    /** bx_chain_init, and three empty caches. */
    constructor (config: Configuration, contacts: Table, projects: Table, invoices: Table, ghost history: seq<Fact>)
      requires contacts != projects && contacts != invoices && projects != invoices
      ensures Valid()
      ensures this.config == config && contactTable == contacts && projectTable == projects && invoiceTable == invoices
      ensures fresh({contactCache, projectCache, invoiceCache, contactCache.items, projectCache.items, invoiceCache.items})
      ensures View() == State(config.Cursor(), config.Cursor(), false, false,
                              Store(EMPTY, contacts.rows), Store(EMPTY, projects.rows), Store(EMPTY, invoices.rows),
                              history + [Booted(config.Cursor())])
    {
      this.config := config;
      contactTable, projectTable, invoiceTable := contacts, projects, invoices;
      contactCache := new Cache();
      projectCache := new Cache();
      invoiceCache := new Cache();
      var loaded := Decode(config.chain, config.step, config.offset, config.pass);
      cursor := loaded;
      contactFromZero, invoiceFromZero := false, false;
      log := history + [Booted(loaded)];
    }

    /** The part of the thread a page walk works on. */
    ghost function DeskView(cache: Cache, table: Table): Desk
      requires cache.Valid()
      reads this, config, cache, cache.items, table
    {
      Desk(cursor, config.Cursor(), ItemSync.StoreOf(cache, table), log)
    }

    /** Syncs one row of a page. */
    method SyncRow(cache: Cache, table: Table, kind: Kind, item: Item) returns (done: Item, failed: bool)
      requires cache.Valid()
      modifies `log, cache, cache.items, table
      ensures cache.Valid() && (cache.items == old(cache.items) || fresh(cache.items))
      ensures DeskView(cache, table) == ItemStep(old(DeskView(cache, table)), kind, done)
      ensures failed == ItemFails(old(DeskView(cache, table)).store, done)
    {
      done, failed := SyncItem(cache, table, item);
      if !done.outcome.Unreadable? {
        log := log + [Listed(kind, done.id)];
      }
    }

    /** Syncs the rows of one page until one fails. */
    method SyncRows(cache: Cache, table: Table, kind: Kind, rows: seq<Item>)
      returns (done: seq<Item>, failed: bool)
      requires cache.Valid()
      modifies `log, cache, cache.items, table
      ensures cache.Valid() && (cache.items == old(cache.items) || fresh(cache.items))
      ensures (DeskView(cache, table), failed) == SyncItems(old(DeskView(cache, table)), kind, done)
      ensures done == [] <==> rows == []
    {
      done, failed := [], false;
      for i := 0 to |rows|
        invariant cache.Valid() && (cache.items == old(cache.items) || fresh(cache.items))
        invariant |done| == i
        invariant (DeskView(cache, table), false) == SyncItems(old(DeskView(cache, table)), kind, done)
      {
        var item;
        item, failed := SyncRow(cache, table, kind, rows[i]);
        assert (done + [item])[..i] == done;
        done := done + [item];
        if failed {
          return;
        }
      }
    }

    /** Stores the cursor row, then follows it in memory. */
    method StoreCheckpoint(next: Cursor) returns (save: Save)
      requires IsNormal(next)
      modifies `cursor, `log, config
      ensures config.Cursor() == Saved(old(config.Cursor()), next, save)
      ensures cursor == if save == SaveDone then next else old(cursor)
      ensures log == old(log) + Writing(next, save)
    {
      save := config.Put(next);
      log := log + Writing(next, save);
      if save == SaveDone {
        cursor := next;
      }
    }

    /** Lists pages from an offset until an empty one, checkpointing after each page whose rows all synced. */
    method WalkPages(cache: Cache, table: Table, phase: Phase, start: cint)
      returns (pages: seq<Page>, w: Walking)
      requires cache.Valid() && IsNormal(cursor) && phase != InvoiceMissed
      modifies `log, `cursor, config, cache, cache.items, table
      ensures cache.Valid() && IsNormal(cursor) && (cache.items == old(cache.items) || fresh(cache.items))
      ensures !w.More?
      ensures (DeskView(cache, table), w) == Walk(old(DeskView(cache, table)), phase, start, pages)
    {
      var offset: nat := if start < 0 then 0 else start;
      pages := [];
      while true
        invariant cache.Valid() && IsNormal(cursor) && (cache.items == old(cache.items) || fresh(cache.items))
        invariant offset <= INT_MAX
        invariant (DeskView(cache, table), More(offset)) == Walk(old(DeskView(cache, table)), phase, start, pages)
        decreases INT_MAX - offset
      {
        var page;
        page, w := WalkPage(cache, table, phase, offset);
        assert (pages + [page])[..|pages|] == pages;
        pages := pages + [page];
        if !w.More? {
          return;
        }
        offset := w.offset;
      }
    }

    /** What follows the rows of a page: the end of the walk, or the page callback. */
    method ClosePage(phase: Phase, offset: nat, empty: bool, ghost s: Store) returns (save: Save, w: Walking)
      requires phase != InvoiceMissed
      modifies `log, `cursor, config
      ensures w.More? ==> offset < w.offset <= INT_MAX
      ensures IsNormal(old(cursor)) ==> IsNormal(cursor)
      ensures (Desk(cursor, config.Cursor(), s, log), w) ==
        PageEnd(Desk(old(cursor), old(config.Cursor()), s, old(log)), phase, offset, empty, save)
    {
      save := SaveRefused;
      if empty {
        log := log + [Ended(phase, offset)];
        return save, Finished;
      }
      log := log + [Synced(phase, offset)];
      var next := offset + LIST_LIMIT;
      if next > INT_MAX {
        return save, Failed;
      }
      save := StoreCheckpoint(Cursor(phase, next));
      w := if save == SaveDone then More(next) else Failed;
    }

    /** One turn of the walk: request, rows, page callback. */
    method WalkPage(cache: Cache, table: Table, phase: Phase, offset: nat)
      returns (page: Page, w: Walking)
      requires cache.Valid() && IsNormal(cursor) && phase != InvoiceMissed
      modifies `log, `cursor, config, cache, cache.items, table
      ensures cache.Valid() && IsNormal(cursor) && (cache.items == old(cache.items) || fresh(cache.items))
      ensures w.More? ==> offset < w.offset <= INT_MAX
      ensures (DeskView(cache, table), w) == PageStep(old(DeskView(cache, table)), phase, offset, page)
    {
      log := log + [Requested(phase, offset)];
      var rows := GetPage(phase, offset);
      if rows.None? {
        return PageLost, Failed;
      }
      var done, failed := SyncRows(cache, table, KindOf(phase), rows.value);
      if failed {
        return Page.Page(done, SaveRefused), Failed;
      }
      var save;
      save, w := ClosePage(phase, offset, done == [], ItemSync.StoreOf(cache, table));
      page := Page.Page(done, save);
    }

    // ---- the phases

    /** The walk is over: the next phase starts at 0, in memory first. */
    method AdvanceTo(cache: Cache, table: Table, phase: Phase) returns (save: Save)
      requires cache.Valid()
      modifies `log, `cursor, config
      ensures cache.Valid() && IsNormal(cursor)
      ensures (DeskView(cache, table), save != SaveDone) == Advance(old(DeskView(cache, table)), phase, save)
    {
      cursor := Cursor(phase, 0);
      log := log + [Entered(phase)];
      save := config.Put(cursor);
      log := log + Writing(cursor, save);
    }

    method SyncActive() returns (r: Result, a: Answers)
      requires contactCache.Valid() && IsNormal(cursor) && cursor.phase == ContactActive
      modifies `log, `cursor, `contactFromZero, config, contactCache, contactCache.items, contactTable
      ensures contactCache.Valid() && IsNormal(cursor)
      ensures contactCache.items == old(contactCache.items) || fresh(contactCache.items)
      ensures (Bench(DeskView(contactCache, contactTable), contactFromZero), r) ==
              CallActive(old(Bench(DeskView(contactCache, contactTable), contactFromZero)), a)
    {
      contactFromZero := false;
      var fromZero := cursor.offset == 0;
      var pages, w := WalkPages(contactCache, contactTable, ContactActive, cursor.offset);
      a := Answers(pages, [], false, SaveRefused);
      if w != Finished {
        return FAIL, a;
      }
      if fromZero {
        contactFromZero := true;
      }
      var save := AdvanceTo(contactCache, contactTable, ContactArchived);
      return Result(save != SaveDone, false, save != SaveDone, false), a.(save := save);
    }

    method SyncArchived() returns (r: Result, a: Answers)
      requires contactCache.Valid() && IsNormal(cursor) && cursor.phase == ContactArchived
      modifies `log, `cursor, `contactFromZero, config, contactCache, contactCache.items, contactTable
      ensures contactCache.Valid() && IsNormal(cursor)
      ensures contactCache.items == old(contactCache.items) || fresh(contactCache.items)
      ensures (Bench(DeskView(contactCache, contactTable), contactFromZero), r) ==
              CallArchived(old(Bench(DeskView(contactCache, contactTable), contactFromZero)), a)
    {
      var pages, w := WalkPages(contactCache, contactTable, ContactArchived, cursor.offset);
      a := Answers(pages, [], false, SaveRefused);
      if w != Finished {
        return FAIL, a;
      }
      var save := AdvanceTo(contactCache, contactTable, Project);
      r, a := Result(save != SaveDone, save == SaveDone && contactFromZero, true, save == SaveDone), a.(save := save);
      contactFromZero := false;
    }

    method SyncProject() returns (r: Result, a: Answers)
      requires projectCache.Valid() && IsNormal(cursor) && cursor.phase == Project
      modifies `log, `cursor, config, projectCache, projectCache.items, projectTable
      ensures projectCache.Valid() && IsNormal(cursor)
      ensures projectCache.items == old(projectCache.items) || fresh(projectCache.items)
      ensures (Bench(DeskView(projectCache, projectTable), false), r) ==
              CallProject(Bench(old(DeskView(projectCache, projectTable)), false), a)
    {
      var fromZero := cursor.offset == 0;
      var pages, w := WalkPages(projectCache, projectTable, Project, cursor.offset);
      a := Answers(pages, [], false, SaveRefused);
      if w != Finished {
        return FAIL, a;
      }
      var save := AdvanceTo(projectCache, projectTable, InvoiceList);
      return Result(save != SaveDone, save == SaveDone && fromZero, true, save == SaveDone), a.(save := save);
    }

    method SyncInvoiceList() returns (r: Result, a: Answers)
      requires invoiceCache.Valid() && IsNormal(cursor) && cursor.phase == InvoiceList
      modifies `log, `cursor, `invoiceFromZero, config, invoiceCache, invoiceCache.items, invoiceTable
      ensures invoiceCache.Valid() && IsNormal(cursor)
      ensures invoiceCache.items == old(invoiceCache.items) || fresh(invoiceCache.items)
      ensures (Bench(DeskView(invoiceCache, invoiceTable), invoiceFromZero), r) ==
              CallInvoiceList(old(Bench(DeskView(invoiceCache, invoiceTable), invoiceFromZero)), a)
    {
      invoiceFromZero := false;
      var fromZero := cursor.offset == 0;
      var pages, w := WalkPages(invoiceCache, invoiceTable, InvoiceList, cursor.offset);
      a := Answers(pages, [], false, SaveRefused);
      if w != Finished {
        return FAIL, a;
      }
      var save;
      if !fromZero {
        save := AdvanceTo(invoiceCache, invoiceTable, ContactActive);
        return Result(save != SaveDone, false, true, save == SaveDone), a.(save := save);
      }
      invoiceFromZero := true;
      save := AdvanceTo(invoiceCache, invoiceTable, InvoiceMissed);
      return Result(save != SaveDone, false, save != SaveDone, false), a.(save := save);
    }

    method SyncMissed() returns (r: Result, a: Answers)
      requires invoiceCache.Valid() && IsNormal(cursor) && cursor.phase == InvoiceMissed
      modifies `log, `cursor, `invoiceFromZero, config, invoiceCache, invoiceCache.items, invoiceTable
      ensures invoiceCache.Valid() && IsNormal(cursor)
      ensures invoiceCache.items == old(invoiceCache.items) || fresh(invoiceCache.items)
      ensures (Bench(DeskView(invoiceCache, invoiceTable), invoiceFromZero), r) ==
              CallMissed(old(Bench(DeskView(invoiceCache, invoiceTable), invoiceFromZero)), a)
      ensures FetchEnds(old(ItemSync.StoreOf(invoiceCache, invoiceTable)), a.replies, a.fetched)
    {
      var ok, replies := FetchMissed(invoiceCache, invoiceTable);
      log := log + AskedFacts(replies);
      a := Answers([], replies, ok, SaveRefused);
      if !ok {
        return FAIL, a;
      }
      var fromZero := invoiceFromZero;
      invoiceFromZero := false;
      log := log + [MissedDone];
      var save := AdvanceTo(invoiceCache, invoiceTable, ContactActive);
      return Result(save != SaveDone, save == SaveDone && fromZero, true, save == SaveDone), a.(save := save);
    }

    method CallContacts() returns (r: Result, a: Answers)
      requires contactCache.Valid() && IsNormal(cursor) && KindOf(cursor.phase) == Contacts
      modifies `log, `cursor, `contactFromZero, config, contactCache, contactCache.items, contactTable
      ensures contactCache.Valid() && IsNormal(cursor)
      ensures contactCache.items == old(contactCache.items) || fresh(contactCache.items)
      ensures (Bench(DeskView(contactCache, contactTable), contactFromZero), r) ==
              Call(old(cursor).phase, old(Bench(DeskView(contactCache, contactTable), contactFromZero)), a)
    {
      if cursor.phase == ContactActive {
        r, a := SyncActive();
      } else {
        r, a := SyncArchived();
      }
    }

    method SyncContacts() returns (r: Result, a: Answers)
      requires Valid() && KindOf(cursor.phase) == Contacts
      modifies `log, `cursor, `contactFromZero, config, contactCache, contactCache.items, contactTable
      ensures Valid() && (contactCache.items == old(contactCache.items) || fresh(contactCache.items))
      ensures (View(), r) == Called(old(View()), a)
    {
      r, a := CallContacts();
    }

    method SyncProjects() returns (r: Result, a: Answers)
      requires Valid() && KindOf(cursor.phase) == Projects
      modifies `log, `cursor, config, projectCache, projectCache.items, projectTable
      ensures Valid() && (projectCache.items == old(projectCache.items) || fresh(projectCache.items))
      ensures (View(), r) == Called(old(View()), a)
    {
      r, a := SyncProject();
    }

    method CallInvoices() returns (r: Result, a: Answers)
      requires invoiceCache.Valid() && IsNormal(cursor) && KindOf(cursor.phase) == Invoices
      modifies `log, `cursor, `invoiceFromZero, config, invoiceCache, invoiceCache.items, invoiceTable
      ensures invoiceCache.Valid() && IsNormal(cursor)
      ensures invoiceCache.items == old(invoiceCache.items) || fresh(invoiceCache.items)
      ensures (Bench(DeskView(invoiceCache, invoiceTable), invoiceFromZero), r) ==
              Call(old(cursor).phase, old(Bench(DeskView(invoiceCache, invoiceTable), invoiceFromZero)), a)
      ensures old(cursor).phase == InvoiceMissed ==>
        Possible(old(invoiceCache.Snap()), a.replies, a.fetched)
    {
      if cursor.phase == InvoiceList {
        r, a := SyncInvoiceList();
      } else {
        r, a := SyncMissed();
      }
    }

    method SyncInvoices() returns (r: Result, a: Answers)
      requires Valid() && KindOf(cursor.phase) == Invoices
      modifies `log, `cursor, `invoiceFromZero, config, invoiceCache, invoiceCache.items, invoiceTable
      ensures Valid() && (invoiceCache.items == old(invoiceCache.items) || fresh(invoiceCache.items))
      ensures (View(), r) == Called(old(View()), a)
      ensures old(cursor).phase == InvoiceMissed ==>
        Possible(old(invoiceCache.Snap()), a.replies, a.fetched)
    {
      r, a := CallInvoices();
    }

    /** The phase the cursor is in. */
    method SyncPhase() returns (r: Result, a: Answers)
      requires Valid()
      modifies `log, `cursor, `contactFromZero, `invoiceFromZero, config, contactCache, contactCache.items, contactTable,
               projectCache, projectCache.items, projectTable, invoiceCache, invoiceCache.items, invoiceTable
      ensures Valid()
      ensures contactCache.items == old(contactCache.items) || fresh(contactCache.items)
      ensures projectCache.items == old(projectCache.items) || fresh(projectCache.items)
      ensures invoiceCache.items == old(invoiceCache.items) || fresh(invoiceCache.items)
      ensures (View(), r) == Called(old(View()), a)
      ensures old(cursor).phase == InvoiceMissed ==>
        Possible(old(invoiceCache.Snap()), a.replies, a.fetched)
    {
      match KindOf(cursor.phase)
      case Contacts => r, a := SyncContacts();
      case Projects => r, a := SyncProjects();
      case Invoices => r, a := SyncInvoices();
    }

    /** bx_chain_sync: one call, and the flags it raises. */
    method Sync() returns (r: ChainResult, a: Answers)
      requires Valid()
      modifies this, config, contactCache, contactCache.items, contactTable,
               projectCache, projectCache.items, projectTable, invoiceCache, invoiceCache.items, invoiceTable
      ensures Valid()
      ensures contactCache.items == old(contactCache.items) || fresh(contactCache.items)
      ensures projectCache.items == old(projectCache.items) || fresh(projectCache.items)
      ensures invoiceCache.items == old(invoiceCache.items) || fresh(invoiceCache.items)
      ensures View() == ChainSync(old(View()), a).0
      ensures r == FlagsOf(KindOf(old(cursor).phase), ChainSync(old(View()), a).1)
      ensures old(cursor).phase == InvoiceMissed ==>
        Possible(old(invoiceCache.Snap()), a.replies, a.fetched)
    {
      log := log + [CallStarted(cursor)];
      var kind, one := KindOf(cursor.phase), FAIL;
      one, a := SyncPhase();
      r := FlagsOf(kind, one);
    }

    // ---- the thread's loop body

    method PruneOne(cache: Cache, table: Table, kind: Kind) returns (end: PruneEnd, drift: cint)
      requires cache.Valid()
      modifies `log, cache, cache.items, table
      ensures cache.Valid() && cache.items == old(cache.items)
      ensures DeskView(cache, table) == PruneDesk(old(DeskView(cache, table)), kind, end, DriftOf(drift))
    {
      drift := *;
      var ready: bool := *;
      ghost var before := cache.Snap();
      var deleted;
      end, deleted := PruneItems(cache, table, drift, ready);
      log := log + [Pruned(kind, Deleted(before, DriftOf(drift), end), DriftOf(drift))];
    }

    method BumpOne(cache: Cache, table: Table, kind: Kind)
      requires cache.Valid()
      modifies `log, cache, cache.items
      ensures cache.Valid() && cache.items == old(cache.items)
      ensures DeskView(cache, table) == BumpDesk(old(DeskView(cache, table)), kind)
    {
      cache.NextVersion();
      log := log + [Bumped(kind)];
    }

    method PruneContacts() returns (end: PruneEnd, drift: cint)
      requires Valid()
      modifies `log, contactCache, contactCache.items, contactTable
      ensures Valid() && contactCache.items == old(contactCache.items)
      ensures View() == old(View()).WithDesk(Contacts, PruneDesk(old(View()).DeskOf(Contacts), Contacts, end, DriftOf(drift)))
    {
      end, drift := PruneOne(contactCache, contactTable, Contacts);
    }

    method BumpContacts()
      requires Valid()
      modifies `log, contactCache, contactCache.items
      ensures Valid() && contactCache.items == old(contactCache.items)
      ensures View() == old(View()).WithDesk(Contacts, BumpDesk(old(View()).DeskOf(Contacts), Contacts))
    {
      BumpOne(contactCache, contactTable, Contacts);
    }

    method PruneProjects() returns (end: PruneEnd, drift: cint)
      requires Valid()
      modifies `log, projectCache, projectCache.items, projectTable
      ensures Valid() && projectCache.items == old(projectCache.items)
      ensures View() == old(View()).WithDesk(Projects, PruneDesk(old(View()).DeskOf(Projects), Projects, end, DriftOf(drift)))
    {
      end, drift := PruneOne(projectCache, projectTable, Projects);
    }

    method BumpProjects()
      requires Valid()
      modifies `log, projectCache, projectCache.items
      ensures Valid() && projectCache.items == old(projectCache.items)
      ensures View() == old(View()).WithDesk(Projects, BumpDesk(old(View()).DeskOf(Projects), Projects))
    {
      BumpOne(projectCache, projectTable, Projects);
    }

    method PruneInvoices() returns (end: PruneEnd, drift: cint)
      requires Valid()
      modifies `log, invoiceCache, invoiceCache.items, invoiceTable
      ensures Valid() && invoiceCache.items == old(invoiceCache.items)
      ensures View() == old(View()).WithDesk(Invoices, PruneDesk(old(View()).DeskOf(Invoices), Invoices, end, DriftOf(drift)))
    {
      end, drift := PruneOne(invoiceCache, invoiceTable, Invoices);
    }

    method BumpInvoices()
      requires Valid()
      modifies `log, invoiceCache, invoiceCache.items
      ensures Valid() && invoiceCache.items == old(invoiceCache.items)
      ensures View() == old(View()).WithDesk(Invoices, BumpDesk(old(View()).DeskOf(Invoices), Invoices))
    {
      BumpOne(invoiceCache, invoiceTable, Invoices);
    }

    method PruneFlagged(r: ChainResult, ghost kind: Kind, ghost one: Result)
      returns (failed: bool, end: PruneEnd, drift: cint)
      requires Valid() && r == FlagsOf(kind, one)
      modifies `log, contactCache, contactCache.items, contactTable,
               projectCache, projectCache.items, projectTable, invoiceCache, invoiceCache.items, invoiceTable
      ensures Valid() && contactCache.items == old(contactCache.items)
      ensures projectCache.items == old(projectCache.items) && invoiceCache.items == old(invoiceCache.items)
      ensures View() == PruneStep(old(View()), kind, one, end, drift)
      ensures failed <==> one.failed || end != Done
    {
      failed, end, drift := r.failed, Done, 0;
      if !failed && r.pruneContact {
        end, drift := PruneContacts();
        failed := end != Done;
      }
      if !failed && r.pruneProject {
        end, drift := PruneProjects();
        failed := end != Done;
      }
      if !failed && r.pruneInvoice {
        end, drift := PruneInvoices();
        failed := end != Done;
      }
    }

    method BumpFlagged(r: ChainResult, ghost kind: Kind, ghost one: Result)
      requires Valid() && r == FlagsOf(kind, one)
      modifies `log, contactCache, contactCache.items,
               projectCache, projectCache.items, invoiceCache, invoiceCache.items
      ensures Valid() && contactCache.items == old(contactCache.items)
      ensures projectCache.items == old(projectCache.items) && invoiceCache.items == old(invoiceCache.items)
      ensures View() == BumpStep(old(View()), kind, one)
    {
      if r.bumpContact {
        BumpContacts();
      }
      if r.bumpProject {
        BumpProjects();
      }
      if r.bumpInvoice {
        BumpInvoices();
      }
    }

    /** One turn of the chain thread, and whether it ends with a sleep.
        Reconnecting, sleeping and counting errors change nothing here. */
    method Turn() returns (pausing: bool, ghost env: Env)
      requires Valid()
      modifies this, config, contactCache, contactCache.items, contactTable,
               projectCache, projectCache.items, projectTable, invoiceCache, invoiceCache.items, invoiceTable
      ensures Valid()
      ensures contactCache.items == old(contactCache.items) || fresh(contactCache.items)
      ensures projectCache.items == old(projectCache.items) || fresh(projectCache.items)
      ensures invoiceCache.items == old(invoiceCache.items) || fresh(invoiceCache.items)
      ensures View() == After(old(View()), Iteration(env))
      ensures Enabled(old(View()), Iteration(env))
      ensures pausing <==>
        KindOf(cursor.phase) != KindOf(old(cursor).phase) && env.answers.save == SaveDone && env.prune == Done
    {
      ghost var before := View();
      var r, a := Sync();
      ghost var kind, one := KindOf(before.mem.phase), ChainSync(before, a).1;
      var failed, end, drift := PruneFlagged(r, kind, one);
      BumpFlagged(r, kind, one);
      pausing := !failed && r.pause;
      env := Env(a, end, drift);
      CallReports(before, a);
    }

    /** Any number of turns is a run of iterations from where the thread stands. */
    method Run(turns: nat) returns (ghost events: seq<Event>)
      requires Valid()
      modifies this, config, contactCache, contactCache.items, contactTable,
               projectCache, projectCache.items, projectTable, invoiceCache, invoiceCache.items, invoiceTable
      ensures Valid() && |events| == turns && Follows(old(View()), events, View())
    {
      events := [];
      ghost var start := View();
      for i := 0 to turns
        invariant Valid() && |events| == i && Follows(start, events, View())
        invariant contactCache.items == old(contactCache.items) || fresh(contactCache.items)
        invariant projectCache.items == old(projectCache.items) || fresh(projectCache.items)
        invariant invoiceCache.items == old(invoiceCache.items) || fresh(invoiceCache.items)
      {
        ghost var before := View();
        var _, env := Turn();
        FollowsMore(start, events, before, env);
        events := events + [Iteration(env)];
      }
    }

    // ---- the start of a process

    method LoadContacts() returns (ghost loaded: set<uint64>)
      requires Valid() && contactCache.Snap() == EMPTY
      modifies contactCache, contactCache.items
      ensures Valid() && (contactCache.items == old(contactCache.items) || fresh(contactCache.items))
      ensures View() == old(View()).(contacts := Hydrated(old(View()).contacts, loaded))
    {
      ghost var answered, refused;
      loaded, answered, refused := Hydrate(contactCache, contactTable);
    }

    method LoadProjects() returns (ghost loaded: set<uint64>)
      requires Valid() && projectCache.Snap() == EMPTY
      modifies projectCache, projectCache.items
      ensures Valid() && (projectCache.items == old(projectCache.items) || fresh(projectCache.items))
      ensures View() == old(View()).(projects := Hydrated(old(View()).projects, loaded))
    {
      ghost var answered, refused;
      loaded, answered, refused := Hydrate(projectCache, projectTable);
    }

    method LoadInvoices() returns (ghost loaded: set<uint64>)
      requires Valid() && invoiceCache.Snap() == EMPTY
      modifies invoiceCache, invoiceCache.items
      ensures Valid() && (invoiceCache.items == old(invoiceCache.items) || fresh(invoiceCache.items))
      ensures View() == old(View()).(invoices := Hydrated(old(View()).invoices, loaded))
    {
      ghost var answered, refused;
      loaded, answered, refused := Hydrate(invoiceCache, invoiceTable);
    }
  }

  /** A process starts on the tables and the configuration another one left. */
  method Start(config: Configuration, contacts: Table, projects: Table, invoices: Table, ghost history: State)
    returns (t: Thread, ghost event: Event)
    requires contacts != projects && contacts != invoices && projects != invoices
    requires history.saved == config.Cursor() && history.contacts.rows == contacts.rows
    requires history.projects.rows == projects.rows && history.invoices.rows == invoices.rows
    ensures t.Valid() && event.Restart? && t.View() == After(history, event)
  {
    t := new Thread(config, contacts, projects, invoices, history.log);
    ghost var c := t.LoadContacts();
    ghost var p := t.LoadProjects();
    ghost var i := t.LoadInvoices();
    event := Restart(c, p, i);
  }
}
