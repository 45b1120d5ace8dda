/** No page is ever skipped: in every run, with lost pages, failed rows, failed
    or doubtful saves and restarts anywhere. */
module ChainCoverage {
  import opened MachineIntegers
  import opened Prune
  import opened ChainCursor
  import opened ChainSpec
  import opened ChainHistory

  /** Which phase may follow which. A list that resumed midway skips the by-id phase. */
  predicate MayFollow(before: Phase, next: Phase) {
    match before
    case ContactActive => next == ContactArchived
    case ContactArchived => next == Project
    case Project => next == InvoiceList
    case InvoiceList => next == InvoiceMissed || next == ContactActive
    case InvoiceMissed => false
  }

  /** What must precede a fact: an empty page ends a phase only past pages that
      are covered since memory entered the phase; a phase is entered only from
      the end of the one before it; a restart takes up an offset that is covered
      since the phase of the saved cursor was entered. */
  ghost predicate InSequence(before: seq<Fact>, f: Fact) {
    match f
    case Ended(phase, offset) => Covered(before, MemEntry(before), phase, offset)
    case Entered(phase) =>
      && before != []
      && var last := before[|before| - 1];
         (last.Ended? && MayFollow(last.phase, phase)) || (last.MissedDone? && phase == ContactActive)
    case Booted(c) => before == [] || Covered(before, SavedEntry(before), c.phase, c.offset)
    case _ => true
  }

  ghost predicate CursorsCovered(d: Desk) {
    && IsNormal(d.mem) && IsNormal(d.saved)
    && Covered(d.log, MemEntry(d.log), d.mem.phase, d.mem.offset)
    && Covered(d.log, SavedEntry(d.log), d.saved.phase, d.saved.offset)
  }

  ghost predicate DeskCovered(d: Desk) {
    CursorsCovered(d) && Justified(d.log, InSequence)
  }

  lemma CoveredHere(log: seq<Fact>, e: nat, base: nat, c: Cursor)
    requires e < |log| && IsEntry(log, e, c.phase, base) && CursorInOrder(log, e, c.phase, base, c)
    ensures Covered(log, e, c.phase, c.offset)
  {
  }

  /** An empty page justifies its own fact. */
  lemma EndCovered(rest: seq<Fact>, phase: Phase, e: nat, base: nat, o: int)
    requires IsEntry(rest, e, phase, base) && InOrder(rest + [Ended(phase, o)], e, phase, base, o)
    requires MemEntry(rest + [Ended(phase, o)]) == e
    ensures InSequence(rest, Ended(phase, o))
  {
    InOrderWithout(rest, Ended(phase, o), e, phase, base, o);
    EntriesOne(rest, Ended(phase, o));
  }

  /** What a walk adds, and what justifies its end. */
  ghost predicate WalkedOn(d: Desk, r: Desk, w: Walking, phase: Phase) {
    if w.Finished?
    then r.log != [] && r.log[|r.log| - 1] == Ended(phase, r.mem.offset) &&
         WalkFacts(d.log, r.log[..|r.log| - 1], phase) && InSequence(r.log[..|r.log| - 1], Ended(phase, r.mem.offset))
    else WalkFacts(d.log, r.log, phase)
  }

  lemma WalkedEnds(d: Desk, r: Desk, w: Walking, phase: Phase, e: nat, base: nat)
    requires IsEntry(d.log, e, phase, base) && WalkedInOrder(d, r, w, phase, e, base) && MemEntry(d.log) == e
    ensures WalkedOn(d, r, w, phase)
  {
    if w.Finished? {
      var rest := r.log[..|r.log| - 1];
      assert r.log == rest + [Ended(phase, r.mem.offset)];
      assert IsEntry(rest, e, phase, base);
      EndCovered(rest, phase, e, base, r.mem.offset);
    }
  }

  lemma WalkedCursors(d: Desk, r: Desk, w: Walking, phase: Phase, e: nat, base: nat)
    requires CursorsCovered(d) && phase != InvoiceMissed && e == MemEntry(d.log)
    requires IsEntry(d.log, e, phase, base) && WalkedInOrder(d, r, w, phase, e, base)
    ensures CursorsCovered(r)
  {
    assert d.log <= r.log by {
      if w.Finished? { assert r.log[..|r.log| - 1] <= r.log; }
    }
    assert IsEntry(r.log, e, phase, base);
    CoveredHere(r.log, e, base, r.mem);
    if r.saved == d.saved && SavedEntry(r.log) == SavedEntry(d.log) {
      CoveredGrows(d.log, r.log, SavedEntry(d.log), d.saved.phase, d.saved.offset);
    } else {
      CoveredHere(r.log, e, base, r.saved);
    }
  }

  lemma WalkCursors(d: Desk, phase: Phase, pages: seq<Page>)
    requires CursorsCovered(d) && d.mem.phase == phase != InvoiceMissed
    ensures var (r, w) := Walk(d, phase, d.mem.offset, pages); CursorsCovered(r) && WalkedOn(d, r, w, phase)
  {
    var e := MemEntry(d.log);
    var base: nat :| IsEntry(d.log, e, phase, base) && InOrder(d.log, e, phase, base, d.mem.offset);
    InOrderBelow(d.log, e, phase, base, d.mem.offset);
    WalkInOrder(d, phase, pages, e, base);
    var (r, w) := Walk(d, phase, d.mem.offset, pages);
    WalkedCursors(d, r, w, phase, e, base);
    WalkedEnds(d, r, w, phase, e, base);
  }

  lemma WalkedOnJustified(d: Desk, r: Desk, w: Walking, phase: Phase)
    requires Justified(d.log, InSequence) && WalkedOn(d, r, w, phase)
    ensures Justified(r.log, InSequence)
  {
    forall b: seq<Fact>, f: Fact | IsWalkFact(f, phase) ensures InSequence(b, f) {
    }
    WalkJustified(d.log, r.log, w.Finished?, phase, r.mem.offset, InSequence);
  }

  /** What a walk leaves is covered, whatever it did in between. */
  lemma WalkCovered(d: Desk, phase: Phase, pages: seq<Page>)
    requires DeskCovered(d) && d.mem.phase == phase != InvoiceMissed
    ensures var (r, w) := Walk(d, phase, d.mem.offset, pages);
            && DeskCovered(r)
            && (w.Finished? ==> r.log != [] && r.log[|r.log| - 1] == Ended(phase, r.mem.offset))
  {
    WalkCursors(d, phase, pages);
    var (r, w) := Walk(d, phase, d.mem.offset, pages);
    WalkedOnJustified(d, r, w, phase);
  }

  /** Entering a phase covers its page 0, and the row too if it was written. */
  lemma EnteredCovered(log: seq<Fact>, phase: Phase, facts: seq<Fact>)
    requires facts == [] || facts == [Wrote(Cursor(phase, 0))]
    ensures var more := log + [Entered(phase)] + facts;
            && MemEntry(more) == |log| && Covered(more, |log|, phase, 0)
            && SavedEntry(more) == if facts == [] then SavedEntry(log) else |log|
  {
    var more := log + [Entered(phase)] + facts;
    EntriesOne(log, Entered(phase));
    if facts == [] {
      assert more == log + [Entered(phase)];
    } else {
      EntriesOne(log + [Entered(phase)], facts[0]);
    }
    assert more[|log|] == Entered(phase);
    InOrderStarts(more, |log|, phase, 0);
    assert IsEntry(more, |log|, phase, 0);
  }

  lemma EnteredJustified(log: seq<Fact>, phase: Phase, facts: seq<Fact>)
    requires Justified(log, InSequence) && InSequence(log, Entered(phase))
    requires facts == [] || facts == [Wrote(Cursor(phase, 0))]
    ensures Justified(log + [Entered(phase)] + facts, InSequence)
  {
    JustifiedOne(log, Entered(phase), InSequence);
    if facts == [] {
      assert log + [Entered(phase)] + facts == log + [Entered(phase)];
    } else {
      JustifiedOne(log + [Entered(phase)], facts[0], InSequence);
    }
  }

  lemma AdvanceCovered(d: Desk, phase: Phase, save: Save)
    requires DeskCovered(d) && InSequence(d.log, Entered(phase))
    ensures DeskCovered(Advance(d, phase, save).0)
  {
    var facts := Writing(Cursor(phase, 0), save);
    EnteredCovered(d.log, phase, facts);
    EnteredJustified(d.log, phase, facts);
    CoveredGrows(d.log, d.log + [Entered(phase)] + facts, SavedEntry(d.log), d.saved.phase, d.saved.offset);
  }

  /** Facts that need no justification. */
  lemma LogCovered(d: Desk, facts: seq<Fact>)
    requires DeskCovered(d)
    requires forall f | f in facts :: IsPlain(f) && !f.Ended?
    ensures DeskCovered(d.(log := d.log + facts))
  {
    var log := d.log + facts;
    EntriesPlain(d.log, facts);
    CoveredGrows(d.log, log, MemEntry(d.log), d.mem.phase, d.mem.offset);
    CoveredGrows(d.log, log, SavedEntry(d.log), d.saved.phase, d.saved.offset);
    forall i | |d.log| <= i < |log| ensures InSequence(log[..i], log[i]) {
      assert log[i] in facts;
    }
    JustifiedMore(d.log, log, InSequence);
  }

  lemma MissedCovered(b: Bench, a: Answers)
    requires DeskCovered(b.desk) && b.desk.mem.phase == InvoiceMissed
    ensures DeskCovered(CallMissed(b, a).0.desk)
  {
    var d := FetchStep(b.desk, a.replies);
    LogCovered(b.desk, AskedFacts(a.replies));
    LogCovered(d, [MissedDone]);
    AdvanceCovered(d.Log(MissedDone), ContactActive, a.save);
  }

  /** After the empty page: a phase that may follow can be entered. */
  lemma EndedCovered(d: Desk, phase: Phase, next: Phase, save: Save)
    requires DeskCovered(d) && d.log != [] && d.log[|d.log| - 1] == Ended(phase, d.mem.offset) && MayFollow(phase, next)
    ensures DeskCovered(Advance(d, next, save).0)
  {
    AdvanceCovered(d, next, save);
  }

  lemma CallCovered(b: Bench, a: Answers)
    requires DeskCovered(b.desk)
    ensures DeskCovered(Call(b.desk.mem.phase, b, a).0.desk)
  {
    var phase := b.desk.mem.phase;
    if phase == InvoiceMissed {
      MissedCovered(b, a);
    } else {
      WalkCovered(b.desk, phase, a.pages);
      var (d, w) := Walk(b.desk, phase, b.desk.mem.offset, a.pages);
      if w.Finished? {
        forall next | MayFollow(phase, next) ensures DeskCovered(Advance(d, next, a.save).0) {
          EndedCovered(d, phase, next, a.save);
        }
      }
    }
  }

  ghost predicate Invariant(st: State) {
    DeskCovered(st.DeskOf(Contacts))
  }

  lemma CalledCovered(st: State, a: Answers)
    requires Invariant(st)
    ensures Invariant(ChainSync(st, a).0)
  {
    var kind := KindOf(st.mem.phase);
    LogCovered(st.DeskOf(kind), [CallStarted(st.mem)]);
    var started := st.Log(CallStarted(st.mem));
    assert DeskCovered(started.BenchOf(kind).desk);
    CallCovered(started.BenchOf(kind), a);
  }

  lemma PruneCovered(st: State, kind: Kind, r: Result, end: PruneEnd, drift: cint)
    requires Invariant(st)
    ensures Invariant(PruneStep(st, kind, r, end, drift))
  {
    if !r.failed && r.prune {
      var ids := Deleted(st.StoreOf(kind).cache, DriftOf(drift), end);
      LogCovered(st.DeskOf(Contacts), [Pruned(kind, ids, DriftOf(drift))]);
    }
  }

  lemma IterateCovered(st: State, env: Env)
    requires Invariant(st)
    ensures Invariant(Iterate(st, env))
  {
    CalledCovered(st, env.answers);
    var (called, r) := ChainSync(st, env.answers);
    var kind := KindOf(st.mem.phase);
    PruneCovered(called, kind, r, env.prune, env.drift);
    if r.bump {
      LogCovered(PruneStep(called, kind, r, env.prune, env.drift).DeskOf(Contacts), [Bumped(kind)]);
    }
  }

  lemma RestartCovered(st: State, contacts: set<uint64>, projects: set<uint64>, invoices: set<uint64>)
    requires Invariant(st)
    ensures Invariant(After(st, Restart(contacts, projects, invoices)))
  {
    JustifiedOne(st.log, Booted(st.saved), InSequence);
    EntriesOne(st.log, Booted(st.saved));
    CoveredGrows(st.log, st.log + [Booted(st.saved)], SavedEntry(st.log), st.saved.phase, st.saved.offset);
  }

  lemma {:induction false} RunCovered(st: State, events: seq<Event>)
    requires IsRun(st, events)
    ensures Invariant(Final(st, events))
  {
    if events == [] {
      assert st.log == [] + [Booted(st.saved)];
      EntriesOne([], Booted(st.saved));
      assert IsEntry(st.log, 0, st.saved.phase, st.saved.offset);
      InOrderStarts(st.log, 0, st.saved.phase, st.saved.offset);
    } else {
      var init := events[..|events| - 1];
      RunBefore(st, events);
      RunCovered(st, init);
      match events[|events| - 1]
      case Iteration(env) => IterateCovered(Final(st, init), env);
      case Restart(c, p, i) => RestartCovered(Final(st, init), c, p, i);
    }
  }

  /** In every run, every page below either cursor was synced whole, in order,
      since its phase was last entered: by memory, or, for the saved cursor and
      what a restart makes of it, by memory when the row was written. A phase is
      only ever left past such pages. */
  lemma {:induction false} NoPageIsSkipped(st: State, events: seq<Event>)
    requires IsRun(st, events)
    ensures var s := Final(st, events);
            && Covered(s.log, MemEntry(s.log), s.mem.phase, s.mem.offset)
            && Covered(s.log, SavedEntry(s.log), s.saved.phase, s.saved.offset)
            && Justified(s.log, InSequence)
  {
    RunCovered(st, events);
  }
}
