/** The other half of ChainFlags: what the log shows to be earned is asked for.
    A call raises its prune flag exactly when it succeeds and its walk is earned. */
module ChainExact {
  import opened MachineIntegers
  import opened Prune
  import opened ChainCursor
  import opened ChainSpec
  import opened ChainHistory
  import opened ChainFlags

  /** The phase memory is in was entered right after one call listed another phase whole. */
  ghost predicate Behind(log: seq<Fact>, whole: Phase, next: Phase) {
    exists s: nat, e: nat ::
      && WholeCall(log, s, e, whole)
      && e + 1 < |log| && log[e + 1] == Entered(next)
      && NoRestartSince(log, s) && MemEntry(log) == e + 1
  }

  /** A flag is up whenever the log shows the walk it stands for. */
  ghost predicate Known(log: seq<Fact>, contact: bool, invoice: bool) {
    && (Behind(log, ContactActive, ContactArchived) ==> contact)
    && (Behind(log, InvoiceList, InvoiceMissed) ==> invoice)
  }

  ghost predicate FlagsKnown(st: State) {
    Known(st.log, st.contactFromZero, st.invoiceFromZero)
  }

  // ---- what is behind a log was behind it before

  lemma {:induction false} EntryInLog(log: seq<Fact>)
    requires log != []
    ensures MemEntry(log) < |log| && SavedEntry(log) < |log|
  {
    var init := log[..|log| - 1];
    if init == [] {
      assert MemEntry(init) == 0 && SavedEntry(init) == 0;
    } else {
      EntryInLog(init);
    }
  }

  lemma WholeCallBefore(log: seq<Fact>, more: seq<Fact>, s: nat, e: nat, phase: Phase)
    requires log <= more && e < |log| && WholeCall(more, s, e, phase)
    ensures WholeCall(log, s, e, phase)
  {
    assert more[..e] == log[..e] && more[..s + 1] == log[..s + 1];
  }

  lemma NotBehindBoot(log: seq<Fact>, c: Cursor, whole: Phase, next: Phase)
    ensures !Behind(log + [Booted(c)], whole, next)
  {
    assert (log + [Booted(c)])[|log|].Booted?;
  }

  lemma NotBehindEntry(log: seq<Fact>, entered: Phase, whole: Phase, next: Phase)
    requires entered != next
    ensures !Behind(log + [Entered(entered)], whole, next)
  {
    EntriesOne(log, Entered(entered));
  }

  lemma BehindBefore(log: seq<Fact>, f: Fact, whole: Phase, next: Phase)
    requires log != [] && !f.Booted? && !f.Entered? && Behind(log + [f], whole, next)
    ensures Behind(log, whole, next)
  {
    var more := log + [f];
    var s: nat, e: nat :|
      WholeCall(more, s, e, whole) && e + 1 < |more| && more[e + 1] == Entered(next) &&
      NoRestartSince(more, s) && MemEntry(more) == e + 1;
    EntriesOne(log, f);
    EntryInLog(log);
    WholeCallBefore(log, more, s, e, whole);
    forall i | s <= i < |log| ensures !log[i].Booted? {
      assert more[i] == log[i];
    }
  }

  /** Facts that neither enter nor restart leave behind what was. */
  lemma {:induction false} KnownStays(log: seq<Fact>, facts: seq<Fact>, contact: bool, invoice: bool)
    requires log != [] && Known(log, contact, invoice) && Stays(facts)
    ensures Known(log + facts, contact, invoice)
  {
    if facts == [] {
      assert log + facts == log;
    } else {
      var init, last := facts[..|facts| - 1], facts[|facts| - 1];
      KnownStays(log, init, contact, invoice);
      assert last in facts && log + facts == log + init + [last];
      if Behind(log + facts, ContactActive, ContactArchived) {
        BehindBefore(log + init, last, ContactActive, ContactArchived);
      }
      if Behind(log + facts, InvoiceList, InvoiceMissed) {
        BehindBefore(log + init, last, InvoiceList, InvoiceMissed);
      }
    }
  }

  /** An active pass is behind the archived phase only if the call that ended it began it. */
  lemma BehindBegan(before: seq<Fact>, log: seq<Fact>, whole: Phase, next: Phase)
    requires before != [] && before[|before| - 1].CallStarted? && CallFacts(before, log) && |before| < |log|
    requires Behind(log + [Entered(next)], whole, next)
    ensures before[|before| - 1].cursor.offset == 0
  {
    var more := log + [Entered(next)];
    EntriesOne(log, Entered(next));
    var s: nat :| WholeCall(more, s, |log| - 1, whole);
    assert more[s] == log[s] && log[|before| - 1] == before[|before| - 1];
  }

  // ---- one call

  /** What a finished walk adds: walk facts, and the empty page. */
  lemma WalkShape(d: Desk, phase: Phase, pages: seq<Page>) returns (init: seq<Fact>, o: int)
    requires d.mem.phase == phase != InvoiceMissed && d.log != [] && IsNormal(d.mem) && IsNormal(d.saved)
    requires Walk(d, phase, d.mem.offset, pages).1.Finished?
    ensures Walk(d, phase, d.mem.offset, pages).0.log == init + [Ended(phase, o)]
    ensures WalkFacts(d.log, init, phase)
  {
    InOrderStarts(d.log, |d.log| - 1, phase, d.mem.offset);
    assert CursorInOrder(d.log, |d.log| - 1, phase, d.mem.offset, d.mem);
    WalkInOrder(d, phase, pages, |d.log| - 1, d.mem.offset);
    var r := Walk(d, phase, d.mem.offset, pages).0;
    init, o := r.log[..|r.log| - 1], r.mem.offset;
  }

  /** The log of a call whose walk finished: the walk, the entry and the row. */
  function Closed(init: seq<Fact>, phase: Phase, o: int, c: Cursor, save: Save): seq<Fact> {
    init + [Ended(phase, o), Entered(c.phase)] + Writing(c, save)
  }

  /** Which fact of this call can stand at a position after its start. */
  lemma ThisCall(before: seq<Fact>, init: seq<Fact>, log: seq<Fact>, phase: Phase, o: int, c: Cursor, save: Save, i: nat)
    requires before != [] && before[|before| - 1].CallStarted?
    requires WalkFacts(before, init, phase) && log == Closed(init, phase, o, c, save)
    requires i < |log| && SameCallSince(log, i)
    ensures |before| - 1 <= i
    ensures i == |before| - 1 || IsWalkFact(log[i], phase) || log[i] == Entered(c.phase) || log[i] == Wrote(c)
            || (i == |init| && log[i] == Ended(phase, o))
  {
    assert log[|before| - 1] == before[|before| - 1];
  }

  lemma WalkEntry(before: seq<Fact>, init: seq<Fact>, phase: Phase)
    requires WalkFacts(before, init, phase)
    ensures MemEntry(init) == MemEntry(before)
  {
    assert init == before + init[|before|..];
    EntryStays(before, init[|before|..]);
  }

  lemma PassBefore(before: seq<Fact>, log: seq<Fact>, whole: Phase, next: Phase, s: nat, e: nat)
    requires before != [] && before <= log && WholeCall(log, s, e, whole) && NoRestartSince(log, s)
    requires e + 1 < |log| && log[e + 1] == Entered(next) && MemEntry(before) == e + 1
    ensures Behind(before, whole, next)
  {
    EntryInLog(before);
    WholeCallBefore(before, log, s, e, whole);
    forall i | s <= i < |before| ensures !before[i].Booted? {
      assert log[i] == before[i];
    }
  }

  lemma EndedHere(before: seq<Fact>, init: seq<Fact>, o: int, save: Save, f: nat)
    requires before != [] && before[|before| - 1].CallStarted? && WalkFacts(before, init, ContactArchived)
    requires var log := Closed(init, ContactArchived, o, Cursor(Project, 0), save);
             f < |log| && log[f].Ended? && SameCallSince(log, f)
    ensures f == |init| && Closed(init, ContactArchived, o, Cursor(Project, 0), save)[..f] == init
  {
    var log := Closed(init, ContactArchived, o, Cursor(Project, 0), save);
    ThisCall(before, init, log, ContactArchived, o, Cursor(Project, 0), save, f);
    assert log[|before| - 1] == before[|before| - 1];
  }

  lemma ContactEarnedBefore(before: seq<Fact>, init: seq<Fact>, o: int, save: Save)
    requires before != [] && before[|before| - 1].CallStarted? && WalkFacts(before, init, ContactArchived)
    requires Earns(Closed(init, ContactArchived, o, Cursor(Project, 0), save), Contacts)
    ensures Behind(before, ContactActive, ContactArchived)
  {
    var log := Closed(init, ContactArchived, o, Cursor(Project, 0), save);
    var s: nat, e: nat, f: nat :| ContactPass(log, s, e, f);
    EndedHere(before, init, o, save, f);
    WalkEntry(before, init, ContactArchived);
    PassBefore(before, log, ContactActive, ContactArchived, s, e);
  }

  /** No active call by itself earns a pruning. */
  lemma ActiveEarnsNothing(before: seq<Fact>, init: seq<Fact>, o: int, c: Cursor, save: Save)
    requires before != [] && before[|before| - 1].CallStarted? && WalkFacts(before, init, ContactActive)
    ensures !Earns(Closed(init, ContactActive, o, c, save), Contacts)
  {
    var log := Closed(init, ContactActive, o, c, save);
    forall s: nat, e: nat, f: nat ensures !ContactPass(log, s, e, f) {
      if ContactPass(log, s, e, f) {
        ThisCall(before, init, log, ContactActive, o, c, save, f);
      }
    }
  }

  lemma ProjectEarnedBefore(before: seq<Fact>, init: seq<Fact>, o: int, save: Save)
    requires before != [] && before[|before| - 1].CallStarted? && WalkFacts(before, init, Project)
    requires Earns(Closed(init, Project, o, Cursor(InvoiceList, 0), save), Projects)
    ensures before[|before| - 1].cursor.offset == 0
  {
    var log := Closed(init, Project, o, Cursor(InvoiceList, 0), save);
    var s: nat, e: nat :| WholeCall(log, s, e, Project) && SameCallSince(log, s);
    ThisCall(before, init, log, Project, o, Cursor(InvoiceList, 0), save, s);
    assert log[|before| - 1] == before[|before| - 1];
  }

  /** No list call by itself earns a pruning. */
  lemma ListEarnsNothing(before: seq<Fact>, init: seq<Fact>, o: int, c: Cursor, save: Save)
    requires before != [] && before[|before| - 1].CallStarted? && WalkFacts(before, init, InvoiceList)
    ensures !Earns(Closed(init, InvoiceList, o, c, save), Invoices)
  {
    var log := Closed(init, InvoiceList, o, c, save);
    forall s: nat, e: nat, m: nat ensures !MissedPass(log, s, e, m) {
      if MissedPass(log, s, e, m) {
        ThisCall(before, init, log, InvoiceList, o, c, save, m);
      }
    }
  }

  lemma MissedHere(before: seq<Fact>, asked: seq<Fact>, log: seq<Fact>, save: Save, m: nat)
    requires before != [] && before[|before| - 1].CallStarted? && forall f | f in asked :: f.Asked?
    requires log == before + asked + [MissedDone, Entered(ContactActive)] + Writing(START, save)
    requires m < |log| && log[m] == MissedDone && SameCallSince(log, m)
    ensures log[..m] == before + asked
  {
    assert log[|before| - 1] == before[|before| - 1];
    assert forall i | |before| <= i < |before + asked| :: log[i] == asked[i - |before|] && asked[i - |before|].Asked?;
  }

  lemma InvoiceEarnedBefore(before: seq<Fact>, asked: seq<Fact>, save: Save)
    requires before != [] && before[|before| - 1].CallStarted? && forall f | f in asked :: f.Asked?
    requires Earns(before + asked + [MissedDone, Entered(ContactActive)] + Writing(START, save), Invoices)
    ensures Behind(before, InvoiceList, InvoiceMissed)
  {
    var log := before + asked + [MissedDone, Entered(ContactActive)] + Writing(START, save);
    var s: nat, e: nat, m: nat :| MissedPass(log, s, e, m);
    MissedHere(before, asked, log, save, m);
    EntryStays(before, asked);
    PassBefore(before, log, InvoiceList, InvoiceMissed, s, e);
  }

  /** The flags after the log of a call whose walk finished. */
  lemma KnownClosed(before: seq<Fact>, init: seq<Fact>, phase: Phase, o: int, c: Cursor, save: Save, contact: bool, invoice: bool)
    requires before != [] && before[|before| - 1].CallStarted? && WalkFacts(before, init, phase)
    requires c.phase == ContactArchived && phase == ContactActive && before[|before| - 1].cursor.offset == 0 ==> contact
    requires c.phase == ContactArchived ==> phase == ContactActive
    requires c.phase == InvoiceMissed ==> invoice
    ensures Known(Closed(init, phase, o, c, save), contact, invoice)
  {
    var ended := init + [Ended(phase, o)];
    if c.phase != ContactArchived {
      NotBehindEntry(ended, c.phase, ContactActive, ContactArchived);
    } else if Behind(ended + [Entered(c.phase)], ContactActive, ContactArchived) {
      assert CallFacts(before, ended);
      BehindBegan(before, ended, ContactActive, ContactArchived);
    }
    if c.phase != InvoiceMissed {
      NotBehindEntry(ended, c.phase, InvoiceList, InvoiceMissed);
    }
    KnownStays(ended + [Entered(c.phase)], Writing(c, save), contact, invoice);
    assert Closed(init, phase, o, c, save) == ended + [Entered(c.phase)] + Writing(c, save);
  }

  /** A call raises its prune flag exactly when it succeeds and the walk is earned. */
  ghost predicate CallExact(st: State, a: Answers) {
    var (r, result) := Called(st, a);
    FlagsKnown(r) && r.log != [] && (result.prune <==> !result.failed && Earns(r.log, KindOf(st.mem.phase)))
  }

  lemma PruneIsEarned(st: State, a: Answers)
    requires Invariant(st) && Started(st)
    ensures var (r, result) := Called(st, a);
            result.prune ==> !result.failed && Earns(r.log, KindOf(st.mem.phase))
  {
    CallKept(st, a);
  }

  /** A walk that did not finish lowers no flag that is known to be up. */
  lemma UnfinishedExact(st: State, a: Answers)
    requires Invariant(st) && FlagsKnown(st) && Started(st) && st.mem.phase != InvoiceMissed
    requires var d := st.DeskOf(KindOf(st.mem.phase));
             !Walk(d, st.mem.phase, st.mem.offset, a.pages).1.Finished?
    ensures CallExact(st, a)
  {
    var phase := st.mem.phase;
    var d := st.DeskOf(KindOf(phase));
    WalkLog(d, phase, a.pages);
    var log := Walk(d, phase, d.mem.offset, a.pages).0.log;
    assert log == st.log + log[|st.log|..];
    KnownStays(st.log, log[|st.log|..], st.contactFromZero, st.invoiceFromZero);
  }

  lemma ActiveExact(st: State, a: Answers, init: seq<Fact>, o: int)
    requires Invariant(st) && Started(st) && st.mem.phase == ContactActive
    requires var (r, w) := Walk(st.DeskOf(Contacts), ContactActive, st.mem.offset, a.pages);
             w.Finished? && r.log == init + [Ended(ContactActive, o)]
    requires WalkFacts(st.log, init, ContactActive)
    ensures CallExact(st, a)
  {
    var c := Cursor(ContactArchived, 0);
    assert Called(st, a).0.log == Closed(init, ContactActive, o, c, a.save);
    KnownClosed(st.log, init, ContactActive, o, c, a.save, st.mem.offset == 0, false);
    ActiveEarnsNothing(st.log, init, o, c, a.save);
  }

  lemma ArchivedResult(st: State, a: Answers, init: seq<Fact>, o: int) returns (r: State, result: Result)
    requires Invariant(st) && Started(st) && st.mem.phase == ContactArchived
    requires var (r, w) := Walk(st.DeskOf(Contacts), ContactArchived, st.mem.offset, a.pages);
             w.Finished? && r.log == init + [Ended(ContactArchived, o)]
    ensures (r, result) == Called(st, a)
    ensures r.log == Closed(init, ContactArchived, o, Cursor(Project, 0), a.save)
    ensures result.prune <==> !result.failed && st.contactFromZero
    ensures result.prune ==> Earns(r.log, Contacts)
  {
    PruneIsEarned(st, a);
    r, result := Called(st, a).0, Called(st, a).1;
  }

  lemma ArchivedEarned(st: State, init: seq<Fact>, o: int, save: Save)
    requires FlagsKnown(st) && Started(st) && WalkFacts(st.log, init, ContactArchived)
    requires Earns(Closed(init, ContactArchived, o, Cursor(Project, 0), save), Contacts)
    ensures st.contactFromZero
  {
    ContactEarnedBefore(st.log, init, o, save);
  }

  lemma ArchivedExact(st: State, a: Answers, init: seq<Fact>, o: int)
    requires Invariant(st) && FlagsKnown(st) && Started(st) && st.mem.phase == ContactArchived
    requires var (r, w) := Walk(st.DeskOf(Contacts), ContactArchived, st.mem.offset, a.pages);
             w.Finished? && r.log == init + [Ended(ContactArchived, o)]
    requires WalkFacts(st.log, init, ContactArchived)
    ensures CallExact(st, a)
  {
    var r, result := ArchivedResult(st, a, init, o);
    KnownClosed(st.log, init, ContactArchived, o, Cursor(Project, 0), a.save, false, false);
    if Earns(r.log, Contacts) {
      ArchivedEarned(st, init, o, a.save);
    }
  }

  lemma ProjectResult(st: State, a: Answers, init: seq<Fact>, o: int) returns (r: State, result: Result)
    requires Invariant(st) && Started(st) && st.mem.phase == Project
    requires var (r, w) := Walk(st.DeskOf(Projects), Project, st.mem.offset, a.pages);
             w.Finished? && r.log == init + [Ended(Project, o)]
    ensures (r, result) == Called(st, a)
    ensures r.log == Closed(init, Project, o, Cursor(InvoiceList, 0), a.save)
    ensures result.prune <==> !result.failed && st.mem.offset == 0
    ensures result.prune ==> Earns(r.log, Projects)
  {
    PruneIsEarned(st, a);
    r, result := Called(st, a).0, Called(st, a).1;
  }

  lemma ProjectExact(st: State, a: Answers, init: seq<Fact>, o: int)
    requires Invariant(st) && Started(st) && st.mem.phase == Project
    requires var (r, w) := Walk(st.DeskOf(Projects), Project, st.mem.offset, a.pages);
             w.Finished? && r.log == init + [Ended(Project, o)]
    requires WalkFacts(st.log, init, Project)
    ensures CallExact(st, a)
  {
    var r, result := ProjectResult(st, a, init, o);
    KnownClosed(st.log, init, Project, o, Cursor(InvoiceList, 0), a.save, false, false);
    if Earns(r.log, Projects) {
      ProjectEarnedBefore(st.log, init, o, a.save);
    }
  }

  lemma ListExact(st: State, a: Answers, init: seq<Fact>, o: int)
    requires Invariant(st) && Started(st) && st.mem.phase == InvoiceList
    requires var (r, w) := Walk(st.DeskOf(Invoices), InvoiceList, st.mem.offset, a.pages);
             w.Finished? && r.log == init + [Ended(InvoiceList, o)]
    requires WalkFacts(st.log, init, InvoiceList)
    ensures CallExact(st, a)
  {
    var whole := st.mem.offset == 0;
    var c := Cursor(if whole then InvoiceMissed else ContactActive, 0);
    assert Called(st, a).0.log == Closed(init, InvoiceList, o, c, a.save);
    KnownClosed(st.log, init, InvoiceList, o, c, a.save, false, whole);
    ListEarnsNothing(st.log, init, o, c, a.save);
  }

  lemma KnownFetched(log: seq<Fact>, save: Save)
    ensures Known(log + [MissedDone, Entered(ContactActive)] + Writing(START, save), false, false)
  {
    var done, entered := log + [MissedDone], log + [MissedDone, Entered(ContactActive)];
    assert entered == done + [Entered(ContactActive)];
    NotBehindEntry(done, ContactActive, ContactActive, ContactArchived);
    NotBehindEntry(done, ContactActive, InvoiceList, InvoiceMissed);
    KnownStays(entered, Writing(START, save), false, false);
  }

  lemma MissedResult(st: State, a: Answers) returns (r: State, result: Result)
    requires Invariant(st) && Started(st) && st.mem.phase == InvoiceMissed && a.fetched
    ensures (r, result) == Called(st, a)
    ensures r.log == st.log + AskedFacts(a.replies) + [MissedDone, Entered(ContactActive)] + Writing(START, a.save)
    ensures result.prune <==> !result.failed && st.invoiceFromZero
    ensures result.prune ==> Earns(r.log, Invoices)
  {
    PruneIsEarned(st, a);
    r, result := Called(st, a).0, Called(st, a).1;
    var log := st.log + AskedFacts(a.replies);
    assert log + [MissedDone] + [Entered(ContactActive)] == log + [MissedDone, Entered(ContactActive)];
  }

  lemma FetchedEarned(st: State, asked: seq<Fact>, save: Save)
    requires FlagsKnown(st) && Started(st) && forall f | f in asked :: f.Asked?
    requires Earns(st.log + asked + [MissedDone, Entered(ContactActive)] + Writing(START, save), Invoices)
    ensures st.invoiceFromZero
  {
    InvoiceEarnedBefore(st.log, asked, save);
  }

  lemma FetchedExact(st: State, a: Answers)
    requires Invariant(st) && FlagsKnown(st) && Started(st) && st.mem.phase == InvoiceMissed && a.fetched
    ensures CallExact(st, a)
  {
    var r, result := MissedResult(st, a);
    KnownFetched(st.log + AskedFacts(a.replies), a.save);
    if Earns(r.log, Invoices) {
      FetchedEarned(st, AskedFacts(a.replies), a.save);
    }
  }

  lemma MissedExact(st: State, a: Answers)
    requires Invariant(st) && FlagsKnown(st) && Started(st) && st.mem.phase == InvoiceMissed
    ensures CallExact(st, a)
  {
    if a.fetched {
      FetchedExact(st, a);
    } else {
      KnownStays(st.log, AskedFacts(a.replies), st.contactFromZero, st.invoiceFromZero);
    }
  }

  lemma CallIsExact(st: State, a: Answers)
    requires Invariant(st) && FlagsKnown(st) && Started(st)
    ensures CallExact(st, a)
  {
    var phase := st.mem.phase;
    var d := st.DeskOf(KindOf(phase));
    if phase == InvoiceMissed {
      MissedExact(st, a);
    } else if !Walk(d, phase, d.mem.offset, a.pages).1.Finished? {
      UnfinishedExact(st, a);
    } else {
      var init, o := WalkShape(d, phase, a.pages);
      match phase
      case ContactActive => ActiveExact(st, a, init, o);
      case ContactArchived => ArchivedExact(st, a, init, o);
      case Project => ProjectExact(st, a, init, o);
      case InvoiceList => ListExact(st, a, init, o);
      case InvoiceMissed =>
    }
  }

  // ---- runs

  lemma StartKnown(st: State)
    requires Invariant(st) && FlagsKnown(st) && st.log != []
    ensures Invariant(st.Log(CallStarted(st.mem))) && FlagsKnown(st.Log(CallStarted(st.mem)))
  {
    LogKeeps(st, [CallStarted(st.mem)]);
    KnownStays(st.log, [CallStarted(st.mem)], st.contactFromZero, st.invoiceFromZero);
  }

  lemma PruneKnown(st: State, kind: Kind, r: Result, end: PruneEnd, drift: cint)
    requires FlagsKnown(st) && st.log != []
    ensures var s := PruneStep(st, kind, r, end, drift); FlagsKnown(s) && s.log != []
  {
    var s := PruneStep(st, kind, r, end, drift);
    KnownStays(st.log, s.log[|st.log|..], st.contactFromZero, st.invoiceFromZero);
  }

  lemma BumpKnown(st: State, kind: Kind, r: Result)
    requires FlagsKnown(st) && st.log != []
    ensures FlagsKnown(BumpStep(st, kind, r))
  {
    KnownStays(st.log, BumpStep(st, kind, r).log[|st.log|..], st.contactFromZero, st.invoiceFromZero);
  }

  lemma IterateKnown(st: State, env: Env)
    requires Invariant(st) && FlagsKnown(st) && st.log != []
    ensures FlagsKnown(Iterate(st, env))
  {
    StartKnown(st);
    CallIsExact(st.Log(CallStarted(st.mem)), env.answers);
    var (called, r) := ChainSync(st, env.answers);
    var kind := KindOf(st.mem.phase);
    PruneKnown(called, kind, r, env.prune, env.drift);
    BumpKnown(PruneStep(called, kind, r, env.prune, env.drift), kind, r);
  }

  lemma {:induction false} RunKnown(st: State, events: seq<Event>)
    requires IsRun(st, events)
    ensures FlagsKnown(Final(st, events)) && Final(st, events).log != []
  {
    if events == [] {
      assert st.log == [] + [Booted(st.saved)];
      NotBehindBoot([], st.saved, ContactActive, ContactArchived);
      NotBehindBoot([], st.saved, InvoiceList, InvoiceMissed);
    } else {
      var init := events[..|events| - 1];
      RunBefore(st, events);
      RunKnown(st, init);
      PruningIsEarned(st, init);
      var s := Final(st, init);
      match events[|events| - 1]
      case Iteration(env) => IterateKnown(s, env);
      case Restart(c, p, i) =>
        NotBehindBoot(s.log, s.saved, ContactActive, ContactArchived);
        NotBehindBoot(s.log, s.saved, InvoiceList, InvoiceMissed);
    }
  }

  /** At every point of every run, the next call raises its prune flag if and only
      if it succeeds and completes a walk that began at page 0 in this process. */
  lemma {:induction false} PruneExactlyWhenEarned(st: State, events: seq<Event>, a: Answers)
    requires IsRun(st, events)
    ensures var s := Final(st, events);
            var (r, result) := ChainSync(s, a);
            result.prune <==> !result.failed && Earns(r.log, KindOf(s.mem.phase))
  {
    RunKnown(st, events);
    PruningIsEarned(st, events);
    StartKnown(Final(st, events));
    CallIsExact(Final(st, events).Log(CallStarted(Final(st, events).mem)), a);
  }
}
