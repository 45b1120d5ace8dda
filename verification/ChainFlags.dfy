/** A resource is pruned only after one whole walk of it, from page 0, in this
    process: in every run, wherever it fails or restarts. */
module ChainFlags {
  import opened MachineIntegers
  import opened Prune
  import opened ChainCursor
  import opened ChainSpec
  import opened ChainHistory

  /** One call, begun at s with the cursor at page 0 of the phase, listed every
      page and found the empty one at e. */
  ghost predicate WholeCall(log: seq<Fact>, s: nat, e: nat, phase: Phase) {
    && s < e < |log|
    && log[s] == CallStarted(Cursor(phase, 0))
    && log[e].Ended? && log[e].phase == phase
    && InOrder(log[..e], s, phase, 0, log[e].offset)
    && WalkFacts(log[..s + 1], log[..e], phase)
  }

  predicate NoRestartSince(log: seq<Fact>, s: nat) {
    forall i | s <= i < |log| :: !log[i].Booted?
  }

  predicate SameCallSince(log: seq<Fact>, s: nat) {
    forall i | s < i < |log| :: !log[i].Booted? && !log[i].CallStarted? && !log[i].Bumped?
  }

  /** The active contacts were listed whole by one call, and the archived phase entered right after. */
  ghost predicate ActivePass(log: seq<Fact>, s: nat, e: nat) {
    && WholeCall(log, s, e, ContactActive)
    && e + 1 < |log| && log[e + 1] == Entered(ContactArchived)
    && NoRestartSince(log, s)
  }

  ghost predicate InvoicePass(log: seq<Fact>, s: nat, e: nat) {
    && WholeCall(log, s, e, InvoiceList)
    && e + 1 < |log| && log[e + 1] == Entered(InvoiceMissed)
    && NoRestartSince(log, s)
  }

  /** The archived contacts were then listed whole, up to the empty page this
      very call found at f, and no other phase was entered in between. */
  ghost predicate ContactPass(log: seq<Fact>, s: nat, e: nat, f: nat) {
    && ActivePass(log, s, e)
    && e + 1 < f < |log|
    && log[f].Ended? && log[f].phase == ContactArchived
    && InOrder(log[..f], e + 1, ContactArchived, 0, log[f].offset)
    && MemEntry(log[..f]) == e + 1 && SameCallSince(log, f)
  }

  /** This very call asked for every missed invoice at m, in the phase the whole
      list had entered; no other phase was entered in between. */
  ghost predicate MissedPass(log: seq<Fact>, s: nat, e: nat, m: nat) {
    && InvoicePass(log, s, e)
    && e + 1 < m < |log| && log[m] == MissedDone
    && MemEntry(log[..m]) == e + 1 && SameCallSince(log, m)
  }

  /** What a log must show before a resource may be pruned: the walk that this
      very call completes, from its page 0 on. */
  ghost predicate Earns(log: seq<Fact>, kind: Kind) {
    match kind
    case Contacts => exists s: nat, e: nat, f: nat :: ContactPass(log, s, e, f)
    case Projects => exists s: nat, e: nat :: WholeCall(log, s, e, Project) && SameCallSince(log, s)
    case Invoices => exists s: nat, e: nat, m: nat :: MissedPass(log, s, e, m)
  }

  ghost predicate Earned(before: seq<Fact>, f: Fact) {
    f.Pruned? ==> Earns(before, f.kind)
  }

  ghost predicate ContactFlagEarned(log: seq<Fact>, mem: Cursor) {
    && mem.phase == ContactArchived
    && exists s: nat, e: nat ::
         ActivePass(log, s, e) && MemEntry(log) == e + 1 && CursorInOrder(log, e + 1, ContactArchived, 0, mem)
  }

  ghost predicate InvoiceFlagEarned(log: seq<Fact>, mem: Cursor) {
    && mem == Cursor(InvoiceMissed, 0)
    && exists s: nat, e: nat :: InvoicePass(log, s, e) && MemEntry(log) == e + 1
  }

  ghost predicate Invariant(st: State) {
    && IsNormal(st.mem) && IsNormal(st.saved)
    && Justified(st.log, Earned)
    && (st.contactFromZero ==> ContactFlagEarned(st.log, st.mem))
    && (st.invoiceFromZero ==> InvoiceFlagEarned(st.log, st.mem))
  }

  // ---- growth of the log

  predicate NoBoots(facts: seq<Fact>) {
    forall f | f in facts :: !f.Booted?
  }

  /** Facts that leave the phase in memory what it is. */
  predicate Stays(facts: seq<Fact>) {
    forall f | f in facts :: !f.Booted? && !f.Entered?
  }

  lemma WholeCallGrows(log: seq<Fact>, more: seq<Fact>, s: nat, e: nat, phase: Phase)
    requires log <= more && WholeCall(log, s, e, phase)
    ensures WholeCall(more, s, e, phase)
  {
    assert more[..e] == log[..e] && more[..s + 1] == log[..s + 1];
  }

  lemma ActivePassGrows(log: seq<Fact>, facts: seq<Fact>, s: nat, e: nat)
    requires ActivePass(log, s, e) && NoBoots(facts)
    ensures ActivePass(log + facts, s, e)
  {
    WholeCallGrows(log, log + facts, s, e, ContactActive);
  }

  lemma InvoicePassGrows(log: seq<Fact>, facts: seq<Fact>, s: nat, e: nat)
    requires InvoicePass(log, s, e) && NoBoots(facts)
    ensures InvoicePass(log + facts, s, e)
  {
    WholeCallGrows(log, log + facts, s, e, InvoiceList);
  }

  /** Facts of the same call. */
  predicate GoesOn(facts: seq<Fact>) {
    forall f | f in facts :: !f.Booted? && !f.CallStarted? && !f.Bumped?
  }

  lemma ContactPassGrows(log: seq<Fact>, facts: seq<Fact>, s: nat, e: nat, f: nat)
    requires ContactPass(log, s, e, f) && GoesOn(facts)
    ensures ContactPass(log + facts, s, e, f)
  {
    ActivePassGrows(log, facts, s, e);
    assert (log + facts)[..f] == log[..f];
    assert SameCallSince(log + facts, f);
  }

  lemma MissedPassGrows(log: seq<Fact>, facts: seq<Fact>, s: nat, e: nat, m: nat)
    requires MissedPass(log, s, e, m) && GoesOn(facts)
    ensures MissedPass(log + facts, s, e, m)
  {
    InvoicePassGrows(log, facts, s, e);
    assert (log + facts)[..m] == log[..m];
    assert SameCallSince(log + facts, m);
  }

  lemma ContactFlagGrows(log: seq<Fact>, facts: seq<Fact>, mem: Cursor)
    requires ContactFlagEarned(log, mem) && Stays(facts)
    ensures ContactFlagEarned(log + facts, mem)
  {
    var s: nat, e: nat :|
      ActivePass(log, s, e) && MemEntry(log) == e + 1 && CursorInOrder(log, e + 1, ContactArchived, 0, mem);
    ActivePassGrows(log, facts, s, e);
    EntryStays(log, facts);
    CursorInOrderGrows(log, log + facts, e + 1, ContactArchived, 0, mem);
  }

  lemma InvoiceFlagGrows(log: seq<Fact>, facts: seq<Fact>, mem: Cursor)
    requires InvoiceFlagEarned(log, mem) && Stays(facts)
    ensures InvoiceFlagEarned(log + facts, mem)
  {
    var s: nat, e: nat :| InvoicePass(log, s, e) && MemEntry(log) == e + 1;
    InvoicePassGrows(log, facts, s, e);
    EntryStays(log, facts);
  }

  /** Justified facts other than restarts and entries keep the invariant while the cursor stands still. */
  lemma GrowthKeeps(st: State, facts: seq<Fact>)
    requires Invariant(st) && Stays(facts) && Justified(st.log + facts, Earned)
    ensures Invariant(st.(log := st.log + facts))
  {
    if st.contactFromZero {
      ContactFlagGrows(st.log, facts, st.mem);
    }
    if st.invoiceFromZero {
      InvoiceFlagGrows(st.log, facts, st.mem);
    }
  }

  lemma LogKeeps(st: State, facts: seq<Fact>)
    requires Invariant(st)
    requires forall f | f in facts :: !f.Booted? && !f.Entered? && !f.Pruned?
    ensures Invariant(st.(log := st.log + facts))
  {
    var log := st.log + facts;
    forall i | |st.log| <= i < |log| ensures Earned(log[..i], log[i]) {
      assert log[i] in facts;
    }
    JustifiedMore(st.log, log, Earned);
    GrowthKeeps(st, facts);
  }

  // ---- walks

  lemma WalkedWhole(d: Desk, r: Desk, phase: Phase)
    requires d.mem == Cursor(phase, 0) && d.log != [] && d.log[|d.log| - 1] == CallStarted(d.mem)
    requires WalkedInOrder(d, r, Finished, phase, |d.log| - 1, 0)
    ensures |d.log| < |r.log| && WholeCall(r.log, |d.log| - 1, |r.log| - 1, phase)
  {
    var s, e := |d.log| - 1, |r.log| - 1;
    assert r.log == r.log[..e] + [r.log[e]];
    InOrderWithout(r.log[..e], r.log[e], s, phase, 0, r.log[e].offset);
    assert r.log[..s + 1] == d.log;
  }

  /** A walk from page 0 right after its call started is a whole call once it ends. */
  lemma WalkIsWhole(d: Desk, phase: Phase, pages: seq<Page>)
    requires d.mem == Cursor(phase, 0) && d.log != [] && d.log[|d.log| - 1] == CallStarted(d.mem)
    ensures var (r, w) := Walk(d, phase, 0, pages);
            w.Finished? ==> |d.log| < |r.log| && WholeCall(r.log, |d.log| - 1, |r.log| - 1, phase)
  {
    var s := |d.log| - 1;
    InOrderStarts(d.log, s, phase, 0);
    assert CursorInOrder(d.log, s, phase, 0, d.mem);
    WalkInOrder(d, phase, pages, s, 0);
    var (r, w) := Walk(d, phase, 0, pages);
    if w.Finished? {
      WalkedWhole(d, r, phase);
    }
  }

  /** Facts that are no pruning are earned by anything. */
  lemma PlainFacts(log: seq<Fact>, more: seq<Fact>)
    requires Justified(log, Earned) && log <= more
    requires forall i | |log| <= i < |more| :: !more[i].Pruned?
    ensures Justified(more, Earned)
  {
    JustifiedMore(log, more, Earned);
  }

  /** A call has just started on this state. */
  predicate Started(st: State) {
    st.log != [] && st.log[|st.log| - 1] == CallStarted(st.mem)
  }

  predicate CallFacts(log: seq<Fact>, more: seq<Fact>) {
    && log <= more
    && forall i | |log| <= i < |more| ::
         more[i].Requested? || more[i].Listed? || more[i].Synced? || more[i].Wrote? || more[i].Ended?
  }

  lemma WalkedLog(d: Desk, r: Desk, w: Walking, phase: Phase)
    requires phase != InvoiceMissed && d.log != [] && IsNormal(d.mem) && IsNormal(d.saved)
    requires WalkedInOrder(d, r, w, phase, |d.log| - 1, d.mem.offset)
    ensures CallFacts(d.log, r.log) && IsNormal(r.mem) && IsNormal(r.saved) && r.mem.phase == phase
  {
    if w.Finished? {
      assert r.log == r.log[..|r.log| - 1] + [r.log[|r.log| - 1]];
    }
  }

  /** What a walk adds: no pruning, no restart, no other call. */
  lemma WalkLog(d: Desk, phase: Phase, pages: seq<Page>)
    requires d.mem.phase == phase != InvoiceMissed && d.log != [] && IsNormal(d.mem) && IsNormal(d.saved)
    ensures var (r, w) := Walk(d, phase, d.mem.offset, pages);
            && CallFacts(d.log, r.log) && IsNormal(r.mem) && IsNormal(r.saved) && r.mem.phase == phase
  {
    InOrderStarts(d.log, |d.log| - 1, phase, d.mem.offset);
    assert CursorInOrder(d.log, |d.log| - 1, phase, d.mem.offset, d.mem);
    WalkInOrder(d, phase, pages, |d.log| - 1, d.mem.offset);
    var (r, w) := Walk(d, phase, d.mem.offset, pages);
    WalkedLog(d, r, w, phase);
  }

  /** A from-zero walk that ended, and what it adds. */
  lemma WholeWalk(d: Desk, phase: Phase, pages: seq<Page>) returns (log: seq<Fact>, finished: bool)
    requires d.mem == Cursor(phase, 0) && d.log != [] && d.log[|d.log| - 1] == CallStarted(d.mem)
    requires phase != InvoiceMissed && IsNormal(d.saved)
    ensures log == Walk(d, phase, 0, pages).0.log && finished == Walk(d, phase, 0, pages).1.Finished?
    ensures finished ==> |d.log| < |log| && CallFacts(d.log, log) && WholeCall(log, |d.log| - 1, |log| - 1, phase)
  {
    WalkLog(d, phase, pages);
    WalkIsWhole(d, phase, pages);
    log, finished := Walk(d, phase, 0, pages).0.log, Walk(d, phase, 0, pages).1.Finished?;
  }

  /** Writing the cursor row takes nothing away. */
  lemma EarnsWritten(log: seq<Fact>, c: Cursor, save: Save, kind: Kind)
    requires Earns(log, kind)
    ensures Earns(log + Writing(c, save), kind)
  {
    var facts := Writing(c, save);
    match kind
    case Contacts =>
      var s: nat, e: nat, f: nat :| ContactPass(log, s, e, f);
      ContactPassGrows(log, facts, s, e, f);
    case Projects =>
      var s: nat, e: nat :| WholeCall(log, s, e, Project) && SameCallSince(log, s);
      WholeCallGrows(log, log + facts, s, e, Project);
      assert SameCallSince(log + facts, s);
    case Invoices =>
      var s: nat, e: nat, m: nat :| MissedPass(log, s, e, m);
      MissedPassGrows(log, facts, s, e, m);
  }

  /** What the log must hold for the state after a phase ended and the next was entered. */
  ghost predicate EntryKeeps(log: seq<Fact>, mem: Cursor, contact: bool, invoice: bool) {
    && Justified(log, Earned)
    && (contact ==> ContactFlagEarned(log, mem))
    && (invoice ==> InvoiceFlagEarned(log, mem))
  }

  lemma EntryWritten(log: seq<Fact>, mem: Cursor, contact: bool, invoice: bool, save: Save)
    requires EntryKeeps(log, mem, contact, invoice)
    ensures EntryKeeps(log + Writing(mem, save), mem, contact, invoice)
  {
    PlainFacts(log, log + Writing(mem, save));
    if contact {
      ContactFlagGrows(log, Writing(mem, save), mem);
    }
    if invoice {
      InvoiceFlagGrows(log, Writing(mem, save), mem);
    }
  }

  /** What every call must leave: the invariant, and a flag to prune only if it was earned. */
  ghost predicate CallKeeps(st: State, a: Answers) {
    var (r, result) := Called(st, a);
    Invariant(r) && (result.prune ==> Earns(r.log, KindOf(st.mem.phase)))
  }

  /** A whole call, and the phase entered after it. */
  lemma WholeThenEntered(before: seq<Fact>, log: seq<Fact>, phase: Phase, next: Phase)
    requires before != [] && before[|before| - 1].CallStarted? && CallFacts(before, log) && |before| < |log|
    requires WholeCall(log, |before| - 1, |log| - 1, phase)
    ensures var more := log + [Entered(next)];
            && WholeCall(more, |before| - 1, |log| - 1, phase) && more[|log|] == Entered(next)
            && SameCallSince(more, |before| - 1) && NoRestartSince(more, |before| - 1)
  {
    WholeCallGrows(log, log + [Entered(next)], |before| - 1, |log| - 1, phase);
    assert log[|before| - 1] == before[|before| - 1];
  }

  /** An active pass just ended is a pass with no archived page yet. */
  lemma PassBegins(before: seq<Fact>, log: seq<Fact>)
    requires before != [] && before[|before| - 1].CallStarted? && CallFacts(before, log) && |before| < |log|
    requires WholeCall(log, |before| - 1, |log| - 1, ContactActive)
    ensures ContactFlagEarned(log + [Entered(ContactArchived)], Cursor(ContactArchived, 0))
  {
    var s, e, more := |before| - 1, |log| - 1, log + [Entered(ContactArchived)];
    WholeThenEntered(before, log, ContactActive, ContactArchived);
    assert ActivePass(more, s, e);
    InOrderStarts(more, e + 1, ContactArchived, 0);
    EntriesOne(log, Entered(ContactArchived));
    assert CursorInOrder(more, e + 1, ContactArchived, 0, Cursor(ContactArchived, 0));
  }

  /** A from-zero active walk that ended earns the flag. */
  lemma ActiveEarnsFlag(d: Desk, pages: seq<Page>)
    requires d.mem == Cursor(ContactActive, 0) && d.log != [] && d.log[|d.log| - 1] == CallStarted(d.mem)
    requires IsNormal(d.saved)
    ensures var (r, w) := Walk(d, ContactActive, 0, pages);
            w.Finished? ==> ContactFlagEarned(r.log + [Entered(ContactArchived)], Cursor(ContactArchived, 0))
  {
    var log, finished := WholeWalk(d, ContactActive, pages);
    if finished {
      PassBegins(d.log, log);
    }
  }

  lemma ActiveKeeps(st: State, a: Answers)
    requires Invariant(st) && Started(st) && st.mem.phase == ContactActive
    ensures CallKeeps(st, a)
  {
    var d := st.DeskOf(Contacts);
    WalkLog(d, ContactActive, a.pages);
    var (walked, w) := Walk(d, ContactActive, d.mem.offset, a.pages);
    PlainFacts(st.log, walked.log);
    if w.Finished? {
      var log, c := walked.log + [Entered(ContactArchived)], Cursor(ContactArchived, 0);
      PlainFacts(walked.log, log);
      if st.mem.offset == 0 {
        ActiveEarnsFlag(d, a.pages);
      }
      EntryWritten(log, c, st.mem.offset == 0, false, a.save);
    }
  }

  lemma ArchivedWalked(d: Desk, r: Desk, w: Walking, s: nat, e: nat)
    requires ActivePass(d.log, s, e) && MemEntry(d.log) == e + 1 && CallFacts(d.log, r.log)
    requires WalkedInOrder(d, r, w, ContactArchived, e + 1, 0)
    ensures ActivePass(r.log, s, e) && MemEntry(r.log) == e + 1
    ensures ContactFlagEarned(r.log, r.mem)
  {
    var news := r.log[|d.log|..];
    assert r.log == d.log + news;
    ActivePassGrows(d.log, news, s, e);
  }

  lemma WalkEnded(d: Desk, r: Desk, e: nat) returns (init: seq<Fact>, o: int)
    requires WalkedInOrder(d, r, Finished, ContactArchived, e + 1, 0) && e + 1 < |d.log|
    ensures r.log == init + [Ended(ContactArchived, o)] && e + 1 < |init|
    ensures InOrder(r.log, e + 1, ContactArchived, 0, o)
  {
    init, o := r.log[..|r.log| - 1], r.mem.offset;
  }

  lemma ArchivedFinished(d: Desk, r: Desk, s: nat, e: nat)
    requires ActivePass(r.log, s, e) && MemEntry(r.log) == e + 1 && e + 1 < |d.log|
    requires WalkedInOrder(d, r, Finished, ContactArchived, e + 1, 0)
    ensures Earns(r.log + [Entered(Project)], Contacts)
  {
    var init, o := WalkEnded(d, r, e);
    ArchivedPassEnds(init, r.log, s, e, o);
  }

  lemma ArchivedCompletesAt(d: Desk, pages: seq<Page>, s: nat, e: nat)
    requires d.mem.phase == ContactArchived && d.log != [] && IsNormal(d.mem) && IsNormal(d.saved)
    requires ActivePass(d.log, s, e) && MemEntry(d.log) == e + 1 && CursorInOrder(d.log, e + 1, ContactArchived, 0, d.mem)
    ensures var (r, w) := Walk(d, ContactArchived, d.mem.offset, pages);
            ContactFlagEarned(r.log, r.mem) && (w.Finished? ==> Earns(r.log + [Entered(Project)], Contacts))
  {
    WalkLog(d, ContactArchived, pages);
    var (r, w) := Walk(d, ContactArchived, d.mem.offset, pages);
    WalkInOrder(d, ContactArchived, pages, e + 1, 0);
    ArchivedWalked(d, r, w, s, e);
    if w.Finished? {
      ArchivedFinished(d, r, s, e);
    }
  }

  /** An archived walk keeps the flag's pass, and completes it once it ends. */
  lemma ArchivedCompletes(d: Desk, pages: seq<Page>)
    requires d.mem.phase == ContactArchived && d.log != [] && IsNormal(d.mem) && IsNormal(d.saved)
    requires ContactFlagEarned(d.log, d.mem)
    ensures var (r, w) := Walk(d, ContactArchived, d.mem.offset, pages);
            ContactFlagEarned(r.log, r.mem) && (w.Finished? ==> Earns(r.log + [Entered(Project)], Contacts))
  {
    var s: nat, e: nat :|
      ActivePass(d.log, s, e) && MemEntry(d.log) == e + 1 && CursorInOrder(d.log, e + 1, ContactArchived, 0, d.mem);
    ArchivedCompletesAt(d, pages, s, e);
  }

  lemma PassFound(init: seq<Fact>, log: seq<Fact>, s: nat, e: nat, o: int)
    requires log == init + [Ended(ContactArchived, o)] && e + 1 < |init|
    requires ActivePass(log, s, e) && MemEntry(log) == e + 1 && InOrder(log, e + 1, ContactArchived, 0, o)
    ensures ContactPass(log, s, e, |init|)
  {
    assert log[..|init|] == init;
    InOrderWithout(init, Ended(ContactArchived, o), e + 1, ContactArchived, 0, o);
    EntriesOne(init, Ended(ContactArchived, o));
    assert SameCallSince(log, |init|);
  }

  lemma ArchivedPassEnds(init: seq<Fact>, log: seq<Fact>, s: nat, e: nat, o: int)
    requires log == init + [Ended(ContactArchived, o)] && e + 1 < |init|
    requires ActivePass(log, s, e) && MemEntry(log) == e + 1 && InOrder(log, e + 1, ContactArchived, 0, o)
    ensures Earns(log + [Entered(Project)], Contacts)
  {
    PassFound(init, log, s, e, o);
    ContactPassGrows(log, [Entered(Project)], s, e, |init|);
  }

  lemma ArchivedEndKeeps(log: seq<Fact>, earned: bool, save: Save)
    requires log != [] && Justified(log, Earned)
    requires earned ==> Earns(log + [Entered(Project)], Contacts)
    ensures var r := log + [Entered(Project)] + Writing(Cursor(Project, 0), save);
            Justified(r, Earned) && (earned ==> Earns(r, Contacts))
  {
    var more, c := log + [Entered(Project)], Cursor(Project, 0);
    PlainFacts(log, more);
    EntryWritten(more, c, false, false, save);
    if earned {
      EarnsWritten(more, c, save, Contacts);
    }
  }

  lemma ArchivedFailKeeps(st: State, a: Answers)
    requires Invariant(st) && Started(st) && st.mem.phase == ContactArchived
    requires !Walk(st.DeskOf(Contacts), ContactArchived, st.mem.offset, a.pages).1.Finished?
    ensures CallKeeps(st, a)
  {
    var d := st.DeskOf(Contacts);
    WalkLog(d, ContactArchived, a.pages);
    PlainFacts(st.log, Walk(d, ContactArchived, d.mem.offset, a.pages).0.log);
    if st.contactFromZero {
      ArchivedCompletes(d, a.pages);
    }
  }

  lemma ArchivedDoneKeeps(st: State, a: Answers)
    requires Invariant(st) && Started(st) && st.mem.phase == ContactArchived
    requires Walk(st.DeskOf(Contacts), ContactArchived, st.mem.offset, a.pages).1.Finished?
    ensures CallKeeps(st, a)
  {
    var d := st.DeskOf(Contacts);
    WalkLog(d, ContactArchived, a.pages);
    var log := Walk(d, ContactArchived, d.mem.offset, a.pages).0.log;
    PlainFacts(st.log, log);
    if st.contactFromZero {
      ArchivedCompletes(d, a.pages);
    }
    ArchivedEndKeeps(log, st.contactFromZero, a.save);
  }

  lemma ArchivedKeeps(st: State, a: Answers)
    requires Invariant(st) && Started(st) && st.mem.phase == ContactArchived
    ensures CallKeeps(st, a)
  {
    if Walk(st.DeskOf(Contacts), ContactArchived, st.mem.offset, a.pages).1.Finished? {
      ArchivedDoneKeeps(st, a);
    } else {
      ArchivedFailKeeps(st, a);
    }
  }

  /** A from-zero project walk that ended earns its pruning. */
  lemma ProjectEarns(d: Desk, pages: seq<Page>)
    requires d.mem == Cursor(Project, 0) && d.log != [] && d.log[|d.log| - 1] == CallStarted(d.mem)
    requires IsNormal(d.saved)
    ensures var (r, w) := Walk(d, Project, 0, pages);
            w.Finished? ==> Earns(r.log + [Entered(InvoiceList)], Projects)
  {
    var log, finished := WholeWalk(d, Project, pages);
    if finished {
      WholeThenEntered(d.log, log, Project, InvoiceList);
    }
  }

  lemma ProjectKeeps(st: State, a: Answers)
    requires Invariant(st) && Started(st) && st.mem.phase == Project
    ensures CallKeeps(st, a)
  {
    var d := st.DeskOf(Projects);
    WalkLog(d, Project, a.pages);
    var (walked, w) := Walk(d, Project, d.mem.offset, a.pages);
    PlainFacts(st.log, walked.log);
    if w.Finished? {
      var log := walked.log + [Entered(InvoiceList)];
      PlainFacts(walked.log, log);
      EntryWritten(log, Cursor(InvoiceList, 0), false, false, a.save);
      if st.mem.offset == 0 {
        ProjectEarns(d, a.pages);
        EarnsWritten(log, Cursor(InvoiceList, 0), a.save, Projects);
      }
    }
  }

  lemma ListPassed(before: seq<Fact>, log: seq<Fact>)
    requires before != [] && before[|before| - 1].CallStarted? && CallFacts(before, log) && |before| < |log|
    requires WholeCall(log, |before| - 1, |log| - 1, InvoiceList)
    ensures InvoiceFlagEarned(log + [Entered(InvoiceMissed)], Cursor(InvoiceMissed, 0))
  {
    WholeThenEntered(before, log, InvoiceList, InvoiceMissed);
    EntriesOne(log, Entered(InvoiceMissed));
    assert InvoicePass(log + [Entered(InvoiceMissed)], |before| - 1, |log| - 1);
  }

  /** A from-zero invoice walk that ended earns the flag. */
  lemma InvoiceEarnsFlag(d: Desk, pages: seq<Page>)
    requires d.mem == Cursor(InvoiceList, 0) && d.log != [] && d.log[|d.log| - 1] == CallStarted(d.mem)
    requires IsNormal(d.saved)
    ensures var (r, w) := Walk(d, InvoiceList, 0, pages);
            w.Finished? ==> InvoiceFlagEarned(r.log + [Entered(InvoiceMissed)], Cursor(InvoiceMissed, 0))
  {
    var log, finished := WholeWalk(d, InvoiceList, pages);
    if finished {
      ListPassed(d.log, log);
    }
  }

  /** Only a list from page 0 goes on to the by-id phase; one that resumed
      midway, once it ends, starts the next cycle. */
  lemma InvoiceListKeeps(st: State, a: Answers)
    requires Invariant(st) && Started(st) && st.mem.phase == InvoiceList
    ensures CallKeeps(st, a)
    ensures var r := Called(st, a).0;
            r.mem.phase == InvoiceList ||
            r.mem == Cursor(if st.mem.offset == 0 then InvoiceMissed else ContactActive, 0)
  {
    var d := st.DeskOf(Invoices);
    WalkLog(d, InvoiceList, a.pages);
    var (walked, w) := Walk(d, InvoiceList, d.mem.offset, a.pages);
    PlainFacts(st.log, walked.log);
    if w.Finished? {
      var whole := st.mem.offset == 0;
      var c := Cursor(if whole then InvoiceMissed else ContactActive, 0);
      var log := walked.log + [Entered(c.phase)];
      PlainFacts(walked.log, log);
      if whole {
        InvoiceEarnsFlag(d, a.pages);
      }
      EntryWritten(log, c, false, whole, a.save);
    }
  }

  /** A by-id call that came through after a whole list earns the pruning. */
  lemma MissedEarns(log: seq<Fact>, asked: seq<Fact>, save: Save)
    requires InvoiceFlagEarned(log, Cursor(InvoiceMissed, 0)) && forall f | f in asked :: f.Asked?
    ensures Earns(log + asked + [MissedDone, Entered(ContactActive)] + Writing(START, save), Invoices)
  {
    var facts := asked + [MissedDone, Entered(ContactActive)];
    var more := log + asked + [MissedDone, Entered(ContactActive)];
    assert more == log + facts;
    var s: nat, e: nat :| InvoicePass(log, s, e) && MemEntry(log) == e + 1;
    InvoicePassGrows(log, facts, s, e);
    EntryStays(log, asked);
    var m := |log + asked|;
    assert more[..m] == log + asked;
    assert MissedPass(more, s, e, m);
    EarnsWritten(more, START, save, Invoices);
  }

  lemma MissedKeeps(st: State, a: Answers)
    requires Invariant(st) && Started(st) && st.mem.phase == InvoiceMissed
    ensures CallKeeps(st, a)
  {
    var asked := AskedFacts(a.replies);
    if a.fetched {
      var log := st.log + asked + [MissedDone, Entered(ContactActive)] + Writing(START, a.save);
      assert log == st.log + asked + [MissedDone] + [Entered(ContactActive)] + Writing(START, a.save);
      PlainFacts(st.log, log);
      if st.invoiceFromZero {
        MissedEarns(st.log, asked, a.save);
      }
    } else {
      LogKeeps(st, asked);
    }
  }

  lemma CallKept(st: State, a: Answers)
    requires Invariant(st) && Started(st)
    ensures CallKeeps(st, a)
  {
    match st.mem.phase
    case ContactActive => ActiveKeeps(st, a);
    case ContactArchived => ArchivedKeeps(st, a);
    case Project => ProjectKeeps(st, a);
    case InvoiceList => InvoiceListKeeps(st, a);
    case InvoiceMissed => MissedKeeps(st, a);
  }

  lemma SyncKeeps(st: State, a: Answers)
    requires Invariant(st)
    ensures var (called, r) := ChainSync(st, a);
            Invariant(called) && (r.prune ==> Earns(called.log, KindOf(st.mem.phase)))
  {
    LogKeeps(st, [CallStarted(st.mem)]);
    CallKept(st.Log(CallStarted(st.mem)), a);
  }

  lemma BumpKeeps(st: State, kind: Kind, r: Result)
    requires Invariant(st)
    ensures Invariant(BumpStep(st, kind, r))
  {
    if r.bump {
      LogKeeps(st, [Bumped(kind)]);
    }
  }

  lemma IterateKeeps(st: State, env: Env)
    requires Invariant(st)
    ensures Invariant(Iterate(st, env))
  {
    var kind := KindOf(st.mem.phase);
    SyncKeeps(st, env.answers);
    var (called, r) := ChainSync(st, env.answers);
    PruneKeeps(called, kind, r, env.prune, env.drift);
    BumpKeeps(PruneStep(called, kind, r, env.prune, env.drift), kind, r);
  }

  lemma PruneKeeps(st: State, kind: Kind, r: Result, end: PruneEnd, drift: cint)
    requires Invariant(st) && (r.prune ==> Earns(st.log, kind))
    ensures Invariant(PruneStep(st, kind, r, end, drift))
  {
    if !r.failed && r.prune {
      var f := Pruned(kind, Deleted(st.StoreOf(kind).cache, DriftOf(drift), end), DriftOf(drift));
      JustifiedOne(st.log, f, Earned);
      GrowthKeeps(st, [f]);
    }
  }

  /** In every run, contacts are pruned only by the call that ends the archived
      phase, and only if one call of this process listed the active ones whole
      from page 0 and entered that very phase; projects only by the call that
      listed them whole; invoices only by a by-id call whose phase was entered by
      one call that listed them whole. */
  lemma {:induction false} PruningIsEarned(st: State, events: seq<Event>)
    requires IsRun(st, events)
    ensures Justified(Final(st, events).log, Earned)
    ensures Invariant(Final(st, events))
  {
    if events == [] {
    } else {
      var init := events[..|events| - 1];
      RunBefore(st, events);
      PruningIsEarned(st, init);
      var s := Final(st, init);
      match events[|events| - 1]
      case Iteration(env) => IterateKeeps(s, env);
      case Restart(c, p, i) => PlainFacts(s.log, s.log + [Booted(s.saved)]);
    }
  }
}
