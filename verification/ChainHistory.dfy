/** Reading the log of a run: which facts justify which. */
module ChainHistory {
  import opened MachineIntegers
  import opened ItemSync
  import opened ChainCursor
  import opened ChainSpec

  /** A phase is entered when memory moves to its page 0, or by the very first cursor a run starts from. */
  predicate IsEntry(log: seq<Fact>, e: nat, phase: Phase, base: nat) {
    && e < |log|
    && ((log[e] == Entered(phase) && base == 0)
        || (e == 0 && log[0].Booted? && log[0].cursor.phase == phase && log[0].cursor.offset == base))
  }

  /** Where, after position e, each page from base on was synced whole, one after the other. */
  predicate SyncedAt(log: seq<Fact>, e: nat, phase: Phase, base: nat, at: seq<nat>) {
    && (forall k | 0 <= k < |at| :: e < at[k] < |log| && log[at[k]] == Synced(phase, base + LIST_LIMIT * k))
    && forall j, k | 0 <= j < k < |at| :: at[j] < at[k]
  }

  /** After position e, the pages from base up to o were each synced whole, in order. */
  ghost predicate InOrder(log: seq<Fact>, e: nat, phase: Phase, base: nat, o: int) {
    exists at: seq<nat> :: o == base + LIST_LIMIT * |at| && SyncedAt(log, e, phase, base, at)
  }

  /** Where the phase the cursor in memory is in was last entered: by memory
      itself, or, after a restart, by the saved cursor it took up. */
  function MemEntry(log: seq<Fact>): nat {
    if log == [] then 0 else
      var init := log[..|log| - 1];
      match log[|log| - 1]
      case Entered(_) => |init|
      case Booted(_) => SavedEntry(init)
      case _ => MemEntry(init)
  }

  /** The same for the saved cursor: what memory had entered when the row was written. */
  function SavedEntry(log: seq<Fact>): nat {
    if log == [] then 0 else
      var init := log[..|log| - 1];
      if log[|log| - 1].Wrote? then MemEntry(init) else SavedEntry(init)
  }

  /** No page of the phase below the offset was skipped since the phase was entered at e. */
  ghost predicate Covered(log: seq<Fact>, e: nat, phase: Phase, o: int) {
    exists base: nat :: IsEntry(log, e, phase, base) && InOrder(log, e, phase, base, o)
  }

  /** Every fact is justified by the log before it. */
  ghost predicate Justified(log: seq<Fact>, ok: (seq<Fact>, Fact) -> bool) {
    forall i | 0 <= i < |log| :: ok(log[..i], log[i])
  }

  lemma InOrderGrows(log: seq<Fact>, more: seq<Fact>, e: nat, phase: Phase, base: nat, o: int)
    requires log <= more && InOrder(log, e, phase, base, o)
    ensures InOrder(more, e, phase, base, o)
  {
    var at: seq<nat> :| o == base + LIST_LIMIT * |at| && SyncedAt(log, e, phase, base, at);
    assert SyncedAt(more, e, phase, base, at);
  }

  lemma InOrderStarts(log: seq<Fact>, e: nat, phase: Phase, base: nat)
    ensures InOrder(log, e, phase, base, base)
  {
    assert SyncedAt(log, e, phase, base, []);
  }

  lemma InOrderBelow(log: seq<Fact>, e: nat, phase: Phase, base: nat, o: int)
    requires InOrder(log, e, phase, base, o)
    ensures base <= o
  {
  }

  /** A last fact that is no synced page adds nothing to the order. */
  lemma InOrderWithout(log: seq<Fact>, f: Fact, e: nat, phase: Phase, base: nat, o: int)
    requires InOrder(log + [f], e, phase, base, o) && !f.Synced?
    ensures InOrder(log, e, phase, base, o)
  {
    var at: seq<nat> :| o == base + LIST_LIMIT * |at| && SyncedAt(log + [f], e, phase, base, at);
    assert SyncedAt(log, e, phase, base, at);
  }

  lemma InOrderNext(log: seq<Fact>, more: seq<Fact>, e: nat, phase: Phase, base: nat, o: int)
    requires InOrder(log, e, phase, base, o) && e < |log|
    requires more == log + [Synced(phase, o)]
    ensures InOrder(more, e, phase, base, o + LIST_LIMIT)
  {
    var at: seq<nat> :| o == base + LIST_LIMIT * |at| && SyncedAt(log, e, phase, base, at);
    assert SyncedAt(more, e, phase, base, at + [|log|]);
    assert |at + [|log|]| == |at| + 1;
  }

  lemma CoveredGrows(log: seq<Fact>, more: seq<Fact>, e: nat, phase: Phase, o: int)
    requires log <= more && Covered(log, e, phase, o)
    ensures Covered(more, e, phase, o)
  {
    var base: nat :| IsEntry(log, e, phase, base) && InOrder(log, e, phase, base, o);
    InOrderGrows(log, more, e, phase, base, o);
    assert more[e] == log[e] && more[0] == log[0];
    assert IsEntry(more, e, phase, base);
  }

  /** Facts that neither enter, write nor boot. */
  predicate IsPlain(f: Fact) {
    !f.Entered? && !f.Wrote? && !f.Booted?
  }

  predicate SameEntries(log: seq<Fact>, more: seq<Fact>) {
    MemEntry(more) == MemEntry(log) && SavedEntry(more) == SavedEntry(log)
  }

  lemma EntriesOne(log: seq<Fact>, f: Fact)
    ensures MemEntry(log + [f]) ==
      (match f case Entered(_) => |log| case Booted(_) => SavedEntry(log) case _ => MemEntry(log))
    ensures SavedEntry(log + [f]) == if f.Wrote? then MemEntry(log) else SavedEntry(log)
  {
    assert (log + [f])[..|log|] == log;
  }

  lemma {:induction false} EntriesPlain(log: seq<Fact>, facts: seq<Fact>)
    requires forall f | f in facts :: IsPlain(f)
    ensures SameEntries(log, log + facts)
  {
    if facts == [] {
      assert log + facts == log;
    } else {
      var init, last := facts[..|facts| - 1], facts[|facts| - 1];
      EntriesPlain(log, init);
      assert last in facts && log + facts == log + init + [last];
      EntriesOne(log + init, last);
    }
  }

  /** Where memory entered its phase changes with an entry or a restart only. */
  lemma {:induction false} EntryStays(log: seq<Fact>, facts: seq<Fact>)
    requires forall f | f in facts :: !f.Entered? && !f.Booted?
    ensures MemEntry(log + facts) == MemEntry(log)
  {
    if facts == [] {
      assert log + facts == log;
    } else {
      var init, last := facts[..|facts| - 1], facts[|facts| - 1];
      EntryStays(log, init);
      assert last in facts && log + facts == log + init + [last];
      EntriesOne(log + init, last);
    }
  }

  lemma JustifiedOne(log: seq<Fact>, f: Fact, ok: (seq<Fact>, Fact) -> bool)
    requires Justified(log, ok) && ok(log, f)
    ensures Justified(log + [f], ok)
  {
    forall i | 0 <= i < |log + [f]| ensures ok((log + [f])[..i], (log + [f])[i]) {
      assert (log + [f])[..i] == log[..i];
    }
  }

  /** Appending facts that are justified by anything. */
  lemma JustifiedMore(log: seq<Fact>, more: seq<Fact>, ok: (seq<Fact>, Fact) -> bool)
    requires Justified(log, ok) && log <= more
    requires forall i | |log| <= i < |more| :: ok(more[..i], more[i])
    ensures Justified(more, ok)
  {
    forall i | 0 <= i < |more| ensures ok(more[..i], more[i]) {
      if i < |log| {
        assert more[..i] == log[..i];
      }
    }
  }

  // ---- what a walk writes to the log

  /** The facts a walk of one phase can log before its end. */
  predicate IsWalkFact(f: Fact, phase: Phase) {
    match f
    case Requested(p, _) => p == phase
    case Listed(k, _) => k == KindOf(phase)
    case Synced(p, _) => p == phase
    case Wrote(c) => c.phase == phase
    case _ => false
  }

  predicate WalkFacts(log: seq<Fact>, more: seq<Fact>, phase: Phase) {
    log <= more && forall i | |log| <= i < |more| :: IsWalkFact(more[i], phase)
  }

  lemma {:induction false} SyncItemsLog(d: Desk, phase: Phase, items: seq<Item>)
    ensures var r := SyncItems(d, KindOf(phase), items).0;
            r.mem == d.mem && r.saved == d.saved && WalkFacts(d.log, r.log, phase) && SameEntries(d.log, r.log)
  {
    if items == [] {
    } else {
      var init, last := items[..|items| - 1], items[|items| - 1];
      SyncItemsLog(d, phase, init);
      EntriesOne(SyncItems(d, KindOf(phase), init).0.log, Listed(KindOf(phase), last.id));
    }
  }

  ghost predicate CursorInOrder(log: seq<Fact>, e: nat, phase: Phase, base: nat, c: Cursor) {
    c.phase == phase && base <= c.offset && 0 <= c.offset && InOrder(log, e, phase, base, c.offset)
  }

  /** The saved cursor stands where it stood, or was written by memory since. */
  ghost predicate SavedInOrder(d: Desk, r: Desk, phase: Phase, e: nat, base: nat) {
    || (r.saved == d.saved && SavedEntry(r.log) == SavedEntry(d.log))
    || (CursorInOrder(r.log, e, phase, base, r.saved) && SavedEntry(r.log) == MemEntry(d.log))
  }

  /** What a walk leaves: cursors that only ever moved to an offset all pages
      below which are synced, and an Ended fact exactly when it finished. */
  ghost predicate WalkedInOrder(d: Desk, r: Desk, w: Walking, phase: Phase, e: nat, base: nat) {
    && CursorInOrder(r.log, e, phase, base, r.mem) && MemEntry(r.log) == MemEntry(d.log)
    && SavedInOrder(d, r, phase, e, base)
    && (w.More? ==> r.mem.offset == w.offset)
    && (if w.Finished?
        then |d.log| < |r.log| && r.log[|r.log| - 1] == Ended(phase, r.mem.offset) &&
             WalkFacts(d.log, r.log[..|r.log| - 1], phase)
        else WalkFacts(d.log, r.log, phase))
  }

  lemma CursorInOrderGrows(log: seq<Fact>, more: seq<Fact>, e: nat, phase: Phase, base: nat, c: Cursor)
    requires log <= more && CursorInOrder(log, e, phase, base, c)
    ensures CursorInOrder(more, e, phase, base, c)
  {
    InOrderGrows(log, more, e, phase, base, c.offset);
  }

  lemma EmptyPageInOrder(d: Desk, s: Desk, phase: Phase, e: nat, base: nat)
    requires e < |d.log| && CursorInOrder(d.log, e, phase, base, d.mem)
    requires s.mem == d.mem && s.saved == d.saved && WalkFacts(d.log, s.log, phase) && SameEntries(d.log, s.log)
    ensures WalkedInOrder(d, s.Log(Ended(phase, d.mem.offset)), Finished, phase, e, base)
  {
    var log := s.log + [Ended(phase, d.mem.offset)];
    assert log[..|log| - 1] == s.log;
    EntriesOne(s.log, Ended(phase, d.mem.offset));
    CursorInOrderGrows(d.log, log, e, phase, base, d.mem);
  }

  /** A page whose rows all synced, before its checkpoint at next. */
  ghost predicate SyncedTo(d: Desk, done: Desk, phase: Phase, next: int, e: nat, base: nat) {
    && done.mem == d.mem && done.saved == d.saved && WalkFacts(d.log, done.log, phase) && SameEntries(d.log, done.log)
    && CursorInOrder(done.log, e, phase, base, d.mem) && base <= next && InOrder(done.log, e, phase, base, next)
  }

  lemma SyncedInOrder(d: Desk, s: Desk, phase: Phase, e: nat, base: nat) returns (done: Desk, next: nat)
    requires e < |d.log| && CursorInOrder(d.log, e, phase, base, d.mem)
    requires s.mem == d.mem && s.saved == d.saved && WalkFacts(d.log, s.log, phase) && SameEntries(d.log, s.log)
    ensures done == s.Log(Synced(phase, d.mem.offset)) && next == d.mem.offset + LIST_LIMIT
    ensures SyncedTo(d, done, phase, next, e, base)
  {
    var o := d.mem.offset;
    done, next := s.Log(Synced(phase, o)), o + LIST_LIMIT;
    var log := done.log;
    CursorInOrderGrows(d.log, s.log, e, phase, base, d.mem);
    CursorInOrderGrows(s.log, log, e, phase, base, d.mem);
    InOrderNext(s.log, log, e, phase, base, o);
    EntriesOne(s.log, Synced(phase, o));
  }

  lemma WritingEntries(log: seq<Fact>, c: Cursor, save: Save)
    ensures MemEntry(log + Writing(c, save)) == MemEntry(log)
    ensures SavedEntry(log + Writing(c, save)) == if save == SaveRefused then SavedEntry(log) else MemEntry(log)
  {
    if save == SaveRefused {
      assert log + Writing(c, save) == log;
    } else {
      EntriesOne(log, Wrote(c));
    }
  }

  /** A checkpoint moves the row, and memory only once the row is known to be written. */
  lemma CheckpointInOrder(d: Desk, s: Desk, phase: Phase, next: Cursor, save: Save, e: nat, base: nat)
    requires s.mem == d.mem && s.saved == d.saved && WalkFacts(d.log, s.log, phase) && SameEntries(d.log, s.log)
    requires CursorInOrder(s.log, e, phase, base, d.mem) && CursorInOrder(s.log, e, phase, base, next)
    ensures var (r, refused) := Checkpoint(s, next, save);
            WalkedInOrder(d, r, if refused then Failed else More(next.offset), phase, e, base)
  {
    var log := s.log + Writing(next, save);
    WritingEntries(s.log, next, save);
    CursorInOrderGrows(s.log, log, e, phase, base, d.mem);
    CursorInOrderGrows(s.log, log, e, phase, base, next);
    assert WalkFacts(d.log, log, phase);
  }

  lemma AfterSyncedInOrder(d: Desk, done: Desk, phase: Phase, next: nat, save: Save, e: nat, base: nat)
    returns (r: Desk, w: Walking)
    requires SyncedTo(d, done, phase, next, e, base)
    ensures (r, w) == AfterSynced(done, phase, next, save) && WalkedInOrder(d, r, w, phase, e, base)
  {
    var both := AfterSynced(done, phase, next, save);
    r, w := both.0, both.1;
    if next <= INT_MAX {
      assert CursorInOrder(done.log, e, phase, base, Cursor(phase, next));
      CheckpointInOrder(d, done, phase, Cursor(phase, next), save, e, base);
    }
  }

  lemma FullPageEnd(s: Desk, phase: Phase, offset: nat, save: Save)
    ensures PageEnd(s, phase, offset, false, save) ==
      AfterSynced(s.Log(Synced(phase, offset)), phase, offset + LIST_LIMIT, save)
  {
  }

  lemma FullPageInOrder(d: Desk, s: Desk, phase: Phase, save: Save, e: nat, base: nat) returns (r: Desk, w: Walking)
    requires e < |d.log| && CursorInOrder(d.log, e, phase, base, d.mem)
    requires s.mem == d.mem && s.saved == d.saved && WalkFacts(d.log, s.log, phase) && SameEntries(d.log, s.log)
    ensures (r, w) == AfterSynced(s.Log(Synced(phase, d.mem.offset)), phase, d.mem.offset + LIST_LIMIT, save)
    ensures WalkedInOrder(d, r, w, phase, e, base)
  {
    var done, next := SyncedInOrder(d, s, phase, e, base);
    r, w := AfterSyncedInOrder(d, done, phase, next, save, e, base);
  }

  /** One page keeps the order. */
  lemma PageInOrder(d: Desk, phase: Phase, page: Page, e: nat, base: nat)
    requires e < |d.log| && CursorInOrder(d.log, e, phase, base, d.mem)
    ensures var (r, w) := PageStep(d, phase, d.mem.offset, page);
            WalkedInOrder(d, r, w, phase, e, base)
  {
    var asked := d.Log(Requested(phase, d.mem.offset));
    EntriesOne(d.log, Requested(phase, d.mem.offset));
    if page.PageLost? {
      CursorInOrderGrows(d.log, asked.log, e, phase, base, d.mem);
    } else {
      SyncItemsLog(asked, phase, page.items);
      var (s, failed) := SyncItems(asked, KindOf(phase), page.items);
      CursorInOrderGrows(d.log, s.log, e, phase, base, d.mem);
      if !failed {
        if page.items == [] {
          EmptyPageInOrder(d, s, phase, e, base);
        } else {
          var r, w := FullPageInOrder(d, s, phase, page.save, e, base);
          FullPageEnd(s, phase, d.mem.offset, page.save);
          assert PageStep(d, phase, d.mem.offset, page) == (r, w);
        }
      }
    }
  }

  lemma SavedTwice(d: Desk, s: Desk, r: Desk, phase: Phase, e: nat, base: nat)
    requires s.log <= r.log && MemEntry(s.log) == MemEntry(d.log)
    requires SavedInOrder(d, s, phase, e, base) && SavedInOrder(s, r, phase, e, base)
    ensures SavedInOrder(d, r, phase, e, base)
  {
    if CursorInOrder(s.log, e, phase, base, s.saved) {
      CursorInOrderGrows(s.log, r.log, e, phase, base, s.saved);
    }
  }

  lemma WalkedTwice(d: Desk, s: Desk, r: Desk, offset: nat, w: Walking, phase: Phase, e: nat, base: nat)
    requires WalkedInOrder(d, s, More(offset), phase, e, base)
    requires WalkedInOrder(s, r, w, phase, e, base)
    ensures WalkedInOrder(d, r, w, phase, e, base)
  {
    var log := if w.Finished? then r.log[..|r.log| - 1] else r.log;
    assert WalkFacts(d.log, log, phase);
    assert s.log <= r.log;
    SavedTwice(d, s, r, phase, e, base);
  }

  /** The same for a whole walk, however it ends. */
  lemma {:induction false} WalkInOrder(d: Desk, phase: Phase, pages: seq<Page>, e: nat, base: nat)
    requires e < |d.log| && CursorInOrder(d.log, e, phase, base, d.mem)
    ensures var (r, w) := Walk(d, phase, d.mem.offset, pages);
            WalkedInOrder(d, r, w, phase, e, base)
  {
    if pages == [] {
    } else {
      var init, last := pages[..|pages| - 1], pages[|pages| - 1];
      WalkInOrder(d, phase, init, e, base);
      var (s, w) := Walk(d, phase, d.mem.offset, init);
      if w.More? {
        PageInOrder(s, phase, last, e, base);
        var (r, v) := PageStep(s, phase, s.mem.offset, last);
        WalkedTwice(d, s, r, w.offset, v, phase, e, base);
      }
    }
  }

  /** A log a walk has added to is justified if its end is, walk facts needing nothing. */
  lemma WalkJustified(before: seq<Fact>, log: seq<Fact>, finished: bool, phase: Phase, o: int, ok: (seq<Fact>, Fact) -> bool)
    requires Justified(before, ok) && forall b, f | IsWalkFact(f, phase) :: ok(b, f)
    requires if finished
             then log != [] && log[|log| - 1] == Ended(phase, o) && WalkFacts(before, log[..|log| - 1], phase) &&
                  ok(log[..|log| - 1], Ended(phase, o))
             else WalkFacts(before, log, phase)
    ensures Justified(log, ok)
  {
    var rest := if finished then log[..|log| - 1] else log;
    forall i | |before| <= i < |rest| ensures ok(rest[..i], rest[i]) {
      assert IsWalkFact(rest[i], phase);
    }
    JustifiedMore(before, rest, ok);
    if finished {
      assert log == rest + [Ended(phase, o)];
      JustifiedOne(rest, Ended(phase, o), ok);
    }
  }
}
