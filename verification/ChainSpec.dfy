/** One iteration of the chain thread as a function: the state it changes and
    the answers it gets from the network, the database and the allocator
    (src/bx_chain.c:147-314, src/bx_walk.c:39-90, src/main.c:384-438).

    The state carries a log of what happened. The log is what the theorems
    about whole runs speak of; no decision reads it. A process that is killed
    between two statements leaves what some iteration with a failing answer
    leaves, followed by a restart. */
module ChainSpec {
  import opened MachineIntegers
  import opened CacheSnapshot
  import opened ItemSync
  import opened Prune
  import opened MissedIds
  import opened ChainCursor

  const LIST_LIMIT := 500

  datatype Kind = Contacts | Projects | Invoices

  datatype Fact =
    | Booted(cursor: Cursor)
    | CallStarted(cursor: Cursor)
    | Requested(phase: Phase, offset: int)
    | Listed(kind: Kind, id: uint64)
    | Synced(phase: Phase, offset: int)              // every row of a non-empty page
    | Ended(phase: Phase, offset: int)               // the page was empty
    | Entered(phase: Phase)                          // the cursor in memory moved there
    | Wrote(cursor: Cursor)                          // the row of the saved cursor was written
    | Asked(reply: Reply)                            // a GET by id was answered
    | MissedDone                                     // every due id was asked for
    | Pruned(kind: Kind, ids: set<uint64>, drift: uint64)
    | Bumped(kind: Kind)

  /** What a page walk works on: the cursors, one resource and the log. */
  datatype Desk = Desk(mem: Cursor, saved: Cursor, store: Store, log: seq<Fact>)
  {
    function Log(f: Fact): Desk {
      this.(log := log + [f])
    }
  }

  datatype State = State(
    mem: Cursor, saved: Cursor, contactFromZero: bool, invoiceFromZero: bool,
    contacts: Store, projects: Store, invoices: Store, log: seq<Fact>)
  {
    function StoreOf(kind: Kind): Store {
      match kind case Contacts => contacts case Projects => projects case Invoices => invoices
    }

    function WithStore(kind: Kind, s: Store): State {
      match kind
      case Contacts => this.(contacts := s)
      case Projects => this.(projects := s)
      case Invoices => this.(invoices := s)
    }

    function DeskOf(kind: Kind): Desk {
      Desk(mem, saved, StoreOf(kind), log)
    }

    function WithDesk(kind: Kind, d: Desk): State {
      WithStore(kind, d.store).(mem := d.mem, saved := d.saved, log := d.log)
    }

    function BenchOf(kind: Kind): Bench {
      Bench(DeskOf(kind),
            match kind case Contacts => contactFromZero case Projects => false case Invoices => invoiceFromZero)
    }

    function WithBench(kind: Kind, b: Bench): State {
      WithDesk(kind, b.desk).(
        contactFromZero := if kind == Contacts then b.fromZero else contactFromZero,
        invoiceFromZero := if kind == Invoices then b.fromZero else invoiceFromZero)
    }

    function Log(f: Fact): State {
      this.(log := log + [f])
    }
  }

  function KindOf(p: Phase): Kind {
    match p
    case ContactActive => Contacts
    case ContactArchived => Contacts
    case Project => Projects
    case InvoiceList => Invoices
    case InvoiceMissed => Invoices
  }

  /** A write of the cursor row. Unsure: the row was written, the caller was told it was not. */
  datatype Save = SaveDone | SaveRefused | SaveUnsure

  function Saved(saved: Cursor, c: Cursor, save: Save): Cursor {
    if save == SaveRefused then saved else c
  }

  function Writing(c: Cursor, save: Save): seq<Fact> {
    if save == SaveRefused then [] else [Wrote(c)]
  }

  // ---- pages

  /** A list request: lost, or a page of rows and what became of the checkpoint after them. */
  datatype Page = PageLost | Page(items: seq<Item>, save: Save)

  datatype Walking = More(offset: nat) | Finished | Failed

  function ItemStep(d: Desk, kind: Kind, item: Item): Desk {
    var s := d.(store := SyncedItem(d.store, item));
    if item.outcome.Unreadable? then s else s.Log(Listed(kind, item.id))
  }

  /** Syncs rows until one fails; tells whether one did. */
  function SyncItems(d: Desk, kind: Kind, items: seq<Item>): (Desk, bool) {
    if items == [] then (d, false) else
      var (s, failed) := SyncItems(d, kind, items[..|items| - 1]);
      if failed then (s, true)
      else (ItemStep(s, kind, items[|items| - 1]), ItemFails(s.store, items[|items| - 1]))
  }

  /** Memory follows the row: it moves only once the row is known to be written. */
  function Checkpoint(d: Desk, c: Cursor, save: Save): (Desk, bool) {
    var s := d.(saved := Saved(d.saved, c, save), log := d.log + Writing(c, save));
    if save == SaveDone then (s.(mem := c), false) else (s, true)
  }

  /** After a page whose rows all synced. */
  function AfterSynced(done: Desk, phase: Phase, next: nat, save: Save): (Desk, Walking) {
    if next > INT_MAX then (done, Failed) else
      var (checked, refused) := Checkpoint(done, Cursor(phase, next), save);
      (checked, if refused then Failed else More(next))
  }

  function PageEnd(d: Desk, phase: Phase, offset: nat, empty: bool, save: Save): (Desk, Walking) {
    if empty then (d.Log(Ended(phase, offset)), Finished)
    else AfterSynced(d.Log(Synced(phase, offset)), phase, offset + LIST_LIMIT, save)
  }

  function PageStep(d: Desk, phase: Phase, offset: nat, page: Page): (Desk, Walking) {
    var asked := d.Log(Requested(phase, offset));
    if page.PageLost? then (asked, Failed) else
      var (s, failed) := SyncItems(asked, KindOf(phase), page.items);
      if failed then (s, Failed) else PageEnd(s, phase, offset, page.items == [], page.save)
  }

  function Walk(d: Desk, phase: Phase, start: int, pages: seq<Page>): (Desk, Walking) {
    if pages == [] then (d, More(if start < 0 then 0 else start)) else
      var (s, w) := Walk(d, phase, start, pages[..|pages| - 1]);
      if w.More? then PageStep(s, phase, w.offset, pages[|pages| - 1]) else (s, w)
  }

  // ---- one call of bx_chain_sync

  datatype Result = Result(failed: bool, prune: bool, bump: bool, pause: bool)

  /** What the world answers during one call. */
  datatype Answers = Answers(pages: seq<Page>, replies: seq<Reply>, fetched: bool, save: Save)

  /** What one call works on: a desk and the started-from-zero flag of its resource. */
  datatype Bench = Bench(desk: Desk, fromZero: bool)

  const FAIL := Result(true, false, true, false)

  /** Memory moves first here, so that a retry does not list the same pages again. */
  function Advance(d: Desk, phase: Phase, save: Save): (Desk, bool) {
    var next := Cursor(phase, 0);
    var moved := d.Log(Entered(phase)).(mem := next);
    (moved.(saved := Saved(d.saved, next, save), log := moved.log + Writing(next, save)), save != SaveDone)
  }

  function CallActive(b: Bench, a: Answers): (Bench, Result) {
    var offset := b.desk.mem.offset;
    var (d, w) := Walk(b.desk, ContactActive, offset, a.pages);
    if w != Finished then (Bench(d, false), FAIL) else
      var (e, failed) := Advance(d, ContactArchived, a.save);
      (Bench(e, offset == 0), Result(failed, false, failed, false))
  }

  function CallArchived(b: Bench, a: Answers): (Bench, Result) {
    var (d, w) := Walk(b.desk, ContactArchived, b.desk.mem.offset, a.pages);
    if w != Finished then (b.(desk := d), FAIL) else
      var (e, failed) := Advance(d, Project, a.save);
      (Bench(e, false), Result(failed, !failed && b.fromZero, true, !failed))
  }

  /** Projects keep no flag between calls: one call lists them all or does not prune. */
  function CallProject(b: Bench, a: Answers): (Bench, Result) {
    var offset := b.desk.mem.offset;
    var (d, w) := Walk(b.desk, Project, offset, a.pages);
    if w != Finished then (b.(desk := d), FAIL) else
      var (e, failed) := Advance(d, InvoiceList, a.save);
      (b.(desk := e), Result(failed, !failed && offset == 0, true, !failed))
  }

  function CallInvoiceList(b: Bench, a: Answers): (Bench, Result) {
    var offset := b.desk.mem.offset;
    var (d, w) := Walk(b.desk, InvoiceList, offset, a.pages);
    if w != Finished then (Bench(d, false), FAIL)
    else if offset != 0 then
      var (e, failed) := Advance(d, ContactActive, a.save);
      (Bench(e, false), Result(failed, false, true, !failed))
    else
      var (e, failed) := Advance(d, InvoiceMissed, a.save);
      (Bench(e, true), Result(failed, false, failed, false))
  }

  function AskedFacts(replies: seq<Reply>): seq<Fact> {
    seq(|replies|, i requires 0 <= i < |replies| => Asked(replies[i]))
  }

  function FetchStep(d: Desk, replies: seq<Reply>): Desk {
    d.(store := Fetched(d.store, replies), log := d.log + AskedFacts(replies))
  }

  function CallMissed(b: Bench, a: Answers): (Bench, Result) {
    var d := FetchStep(b.desk, a.replies);
    if !a.fetched then (b.(desk := d), FAIL) else
      var (e, failed) := Advance(d.Log(MissedDone), ContactActive, a.save);
      (Bench(e, false), Result(failed, !failed && b.fromZero, true, !failed))
  }

  function Call(phase: Phase, b: Bench, a: Answers): (Bench, Result) {
    match phase
    case ContactActive => CallActive(b, a)
    case ContactArchived => CallArchived(b, a)
    case Project => CallProject(b, a)
    case InvoiceList => CallInvoiceList(b, a)
    case InvoiceMissed => CallMissed(b, a)
  }

  /** What bx_chain_sync reports: one prune flag and one bump flag per resource. */
  datatype ChainResult = ChainResult(
    failed: bool, pruneContact: bool, pruneProject: bool, pruneInvoice: bool,
    bumpContact: bool, bumpProject: bool, bumpInvoice: bool, pause: bool)

  /** A call only ever raises the flags of the resource it worked on. */
  function FlagsOf(kind: Kind, r: Result): ChainResult {
    ChainResult(r.failed,
                r.prune && kind == Contacts, r.prune && kind == Projects, r.prune && kind == Invoices,
                r.bump && kind == Contacts, r.bump && kind == Projects, r.bump && kind == Invoices, r.pause)
  }

  function Called(st: State, a: Answers): (State, Result) {
    var kind := KindOf(st.mem.phase);
    var (b, r) := Call(st.mem.phase, st.BenchOf(kind), a);
    (st.WithBench(kind, b), r)
  }

  function ChainSync(st: State, a: Answers): (State, Result) {
    Called(st.Log(CallStarted(st.mem)), a)
  }

  // ---- the thread's loop body

  /** What the world answers during one iteration. */
  datatype Env = Env(answers: Answers, prune: PruneEnd, drift: cint)

  function PruneDesk(d: Desk, kind: Kind, end: PruneEnd, drift: uint64): Desk {
    d.(store := PrunedStore(d.store, drift, end)).Log(Pruned(kind, Deleted(d.store.cache, drift, end), drift))
  }

  function BumpDesk(d: Desk, kind: Kind): Desk {
    d.(store := d.store.(cache := CacheSnapshot.Bumped(d.store.cache))).Log(Bumped(kind))
  }

  function PruneStep(st: State, kind: Kind, r: Result, end: PruneEnd, drift: cint): State {
    if r.failed || !r.prune then st
    else st.WithDesk(kind, PruneDesk(st.DeskOf(kind), kind, end, DriftOf(drift)))
  }

  function BumpStep(st: State, kind: Kind, r: Result): State {
    if !r.bump then st
    else st.WithDesk(kind, BumpDesk(st.DeskOf(kind), kind))
  }

  /** Sync, prune if the call raised its flag, bump if it asked to. A call only
      ever concerns the resource of the phase it ran. */
  function Iterate(st: State, env: Env): State {
    var kind := KindOf(st.mem.phase);
    var (called, r) := ChainSync(st, env.answers);
    BumpStep(PruneStep(called, kind, r, env.prune, env.drift), kind, r)
  }

  // ---- restarts and runs

  /** A new process loads the saved cursor and the rows it manages to read. */
  function Hydrated(s: Store, loaded: set<uint64>): Store {
    s.(cache := Snapshot(1, map id | id in s.rows && id in loaded :: Mark(s.rows[id], 1)))
  }

  ghost predicate IsHydrated(s: Store) {
    exists loaded :: s == Hydrated(s, loaded)
  }

  datatype Event = Iteration(env: Env) | Restart(contacts: set<uint64>, projects: set<uint64>, invoices: set<uint64>)

  function After(st: State, e: Event): State {
    match e
    case Iteration(env) => Iterate(st, env)
    case Restart(c, p, i) =>
      State(st.saved, st.saved, false, false,
            Hydrated(st.contacts, c), Hydrated(st.projects, p), Hydrated(st.invoices, i),
            st.log + [Booted(st.saved)])
  }

  /** The replies of a missed-ids call concern the ids that call had to ask for. */
  ghost predicate Enabled(st: State, e: Event) {
    e.Iteration? && st.mem.phase == InvoiceMissed ==>
      Possible(st.invoices.cache, e.env.answers.replies, e.env.answers.fetched)
  }

  /** The first start of the first process, on any tables and any saved cursor. */
  ghost predicate Initial(st: State) {
    && IsNormal(st.saved) && st.mem == st.saved
    && !st.contactFromZero && !st.invoiceFromZero
    && IsHydrated(st.contacts) && IsHydrated(st.projects) && IsHydrated(st.invoices)
    && st.log == [Booted(st.saved)]
  }

  function Final(st: State, events: seq<Event>): State {
    if events == [] then st else After(Final(st, events[..|events| - 1]), events[|events| - 1])
  }

  ghost predicate IsRun(st: State, events: seq<Event>) {
    Initial(st) && forall i | 0 <= i < |events| :: Enabled(Final(st, events[..i]), events[i])
  }

  /** The states events lead through, one after the other. */
  ghost predicate IsTrail(states: seq<State>, events: seq<Event>) {
    |states| == |events| + 1 && forall k | 0 <= k < |events| :: states[k + 1] == After(states[k], events[k])
  }

  lemma TrailMore<S, E>(states: seq<S>, events: seq<E>, step: (S, E) -> S, e: E)
    requires |states| == |events| + 1 && forall k | 0 <= k < |events| :: states[k + 1] == step(states[k], events[k])
    ensures var longer, more := states + [step(states[|events|], e)], events + [e];
            forall k | 0 <= k < |more| :: longer[k + 1] == step(longer[k], more[k])
  {
  }

  lemma {:induction false} TrailOf(st: State, events: seq<Event>) returns (states: seq<State>)
    ensures IsTrail(states, events) && states[0] == st && states[|events|] == Final(st, events)
  {
    if events == [] {
      states := [st];
    } else {
      var init, last := events[..|events| - 1], events[|events| - 1];
      var before := TrailOf(st, init);
      TrailMore(before, init, After, last);
      assert events == init + [last];
      states := before + [After(before[|init|], last)];
    }
  }

  /** A run without its last event. */
  lemma RunBefore(st: State, events: seq<Event>)
    requires IsRun(st, events) && events != []
    ensures IsRun(st, events[..|events| - 1])
    ensures Enabled(Final(st, events[..|events| - 1]), events[|events| - 1])
  {
    var init := events[..|events| - 1];
    forall i | 0 <= i < |init| ensures Enabled(Final(st, init[..i]), init[i]) {
      assert init[..i] == events[..i];
    }
  }

  /** A run may go on with any event enabled at its end. */
  lemma RunMore(st: State, events: seq<Event>, e: Event)
    requires IsRun(st, events) && Enabled(Final(st, events), e)
    ensures IsRun(st, events + [e])
    ensures Final(st, events + [e]) == After(Final(st, events), e)
  {
    var more := events + [e];
    assert more[..|events|] == events;
    forall i | 0 <= i < |more| ensures Enabled(Final(st, more[..i]), more[i]) {
      assert i < |events| ==> more[..i] == events[..i];
    }
  }

  /** Iterations alone, from any state. */
  ghost predicate Follows(st: State, events: seq<Event>, r: State) {
    && Final(st, events) == r
    && forall i | 0 <= i < |events| :: events[i].Iteration? && Enabled(Final(st, events[..i]), events[i])
  }

  lemma FollowsMore(st: State, events: seq<Event>, r: State, env: Env)
    requires Follows(st, events, r) && Enabled(r, Iteration(env))
    ensures Follows(st, events + [Iteration(env)], After(r, Iteration(env)))
  {
    var more := events + [Iteration(env)];
    assert more[..|events|] == events;
    forall i | 0 <= i < |more| ensures more[i].Iteration? && Enabled(Final(st, more[..i]), more[i]) {
      assert i < |events| ==> more[..i] == events[..i];
    }
  }
}
