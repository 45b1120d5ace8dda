/** What a call of the chain reports, which cursor it may leave ahead of the other,
    and which rows an iteration can lose (src/bx_chain.c:161-314, src/main.c:384-438). */
module ChainCalls {
  import opened MachineIntegers
  import opened ItemSync
  import opened Prune
  import opened MissedIds
  import opened ChainCursor
  import opened ChainSpec
  import opened ChainVanish
  import ChainFlags

  // ---- what a call reports

  /** A call fails exactly when it does not get to the next phase or cannot be sure
      that the row says so. It asks for a bump when it failed or was the last of its
      resource, and for a pause when it was the last of its resource and did not fail. */
  lemma CallReports(st: State, a: Answers)
    ensures var (r, result) := ChainSync(st, a);
            var last := KindOf(r.mem.phase) != KindOf(st.mem.phase);
            && (result.failed <==> r.mem.phase == st.mem.phase || a.save != SaveDone)
            && (result.bump <==> result.failed || last)
            && (result.pause <==> !result.failed && last)
            && (result.prune ==> result.pause)
  {
    var d := st.Log(CallStarted(st.mem)).DeskOf(KindOf(st.mem.phase));
    if st.mem.phase != InvoiceMissed {
      WalkPhase(d, st.mem.phase, st.mem.offset, a.pages);
    }
  }

  lemma {:induction false} WalkPhase(d: Desk, phase: Phase, start: int, pages: seq<Page>)
    requires d.mem.phase == phase
    ensures Walk(d, phase, start, pages).0.mem.phase == phase
  {
    if pages == [] {
    } else {
      var init, last := pages[..|pages| - 1], pages[|pages| - 1];
      WalkPhase(d, phase, start, init);
      var (s, w) := Walk(d, phase, start, init);
      if w.More? && last.Page? {
        ItemsCursors(s.Log(Requested(phase, w.offset)), KindOf(phase), last.items);
      }
    }
  }

  lemma {:induction false} ItemsCursors(d: Desk, kind: Kind, items: seq<Item>)
    ensures var r := SyncItems(d, kind, items).0; r.mem == d.mem && r.saved == d.saved
  {
    if items == [] {
    } else {
      ItemsCursors(d, kind, items[..|items| - 1]);
    }
  }

  /** Memory moves on by one page exactly when the page came, was not empty, had all
      its rows synced, and its checkpoint is known to be written. */
  lemma PageMoves(d: Desk, phase: Phase, offset: nat, page: Page)
    ensures var (r, w) := PageStep(d, phase, offset, page);
            && (w.More? <==>
                  && page.Page? && page.items != [] && page.save == SaveDone && offset + 500 <= INT_MAX
                  && !SyncItems(d.Log(Requested(phase, offset)), KindOf(phase), page.items).1)
            && r.mem == if w.More? then Cursor(phase, offset + 500) else d.mem
  {
    if page.Page? {
      ItemsCursors(d.Log(Requested(phase, offset)), KindOf(phase), page.items);
    }
  }

  /** Memory leaves its phase, for page 0 of the next one, exactly when the walk has
      found the empty page or every missed id was had; whatever becomes of the row. */
  lemma CallMoves(st: State, a: Answers)
    ensures var r := ChainSync(st, a).0;
            var d := st.Log(CallStarted(st.mem)).DeskOf(KindOf(st.mem.phase));
            && (r.mem.phase != st.mem.phase <==>
                  if st.mem.phase == InvoiceMissed then a.fetched
                  else Walk(d, st.mem.phase, st.mem.offset, a.pages).1.Finished?)
            && (r.mem.phase != st.mem.phase ==> r.mem == Cursor(match st.mem.phase
                  case ContactActive => ContactArchived
                  case ContactArchived => Project
                  case Project => InvoiceList
                  case InvoiceList => if st.mem.offset == 0 then InvoiceMissed else ContactActive
                  case InvoiceMissed => ContactActive, 0))
  {
    var d := st.Log(CallStarted(st.mem)).DeskOf(KindOf(st.mem.phase));
    if st.mem.phase != InvoiceMissed {
      WalkPhase(d, st.mem.phase, st.mem.offset, a.pages);
    }
  }

  // ---- memory trails the row

  /** Within the phase the row is in, memory has not passed the row's offset; in
      another phase it stands at its page 0. */
  predicate Trails(mem: Cursor, saved: Cursor) {
    if mem.phase == saved.phase then mem.offset <= saved.offset else mem.offset == 0
  }

  lemma PageTrails(d: Desk, phase: Phase, page: Page)
    requires Trails(d.mem, d.saved) && d.mem.phase == phase && 0 <= d.mem.offset && 0 <= d.saved.offset
    ensures var (r, w) := PageStep(d, phase, d.mem.offset, page);
            Trails(r.mem, r.saved) && r.mem.phase == phase && 0 <= r.mem.offset && 0 <= r.saved.offset && (w.More? ==> w.offset == r.mem.offset)
  {
    if page.Page? {
      ItemsCursors(d.Log(Requested(phase, d.mem.offset)), KindOf(phase), page.items);
    }
  }

  lemma {:induction false} WalkTrails(d: Desk, phase: Phase, pages: seq<Page>)
    requires Trails(d.mem, d.saved) && d.mem.phase == phase && 0 <= d.mem.offset && 0 <= d.saved.offset
    ensures var (r, w) := Walk(d, phase, d.mem.offset, pages);
            Trails(r.mem, r.saved) && r.mem.phase == phase && 0 <= r.mem.offset && 0 <= r.saved.offset && (w.More? ==> w.offset == r.mem.offset)
  {
    if pages == [] {
    } else {
      WalkTrails(d, phase, pages[..|pages| - 1]);
      var (s, w) := Walk(d, phase, d.mem.offset, pages[..|pages| - 1]);
      if w.More? {
        PageTrails(s, phase, pages[|pages| - 1]);
      }
    }
  }

  lemma CallTrails(st: State, a: Answers)
    requires Trails(st.mem, st.saved) && 0 <= st.mem.offset && 0 <= st.saved.offset
    ensures var r := ChainSync(st, a).0; Trails(r.mem, r.saved) && 0 <= r.mem.offset
  {
    var d := st.Log(CallStarted(st.mem)).DeskOf(KindOf(st.mem.phase));
    if st.mem.phase != InvoiceMissed {
      WalkTrails(d, st.mem.phase, a.pages);
    }
  }

  /** In every run memory is ahead of the row by an entered phase at most, never by
      a page: whatever saves fail, a restart takes up the phase the row is in no
      earlier than where memory stood in it. */
  lemma {:induction false} MemoryTrails(st: State, events: seq<Event>)
    requires IsRun(st, events)
    ensures var s := Final(st, events); Trails(s.mem, s.saved) && 0 <= s.mem.offset && 0 <= s.saved.offset
  {
    SavedStays(st, events);
    if events == [] {
    } else {
      var init := events[..|events| - 1];
      RunBefore(st, events);
      MemoryTrails(st, init);
      match events[|events| - 1]
      case Iteration(env) => CallTrails(Final(st, init), env.answers);
      case Restart(_, _, _) =>
    }
  }

  lemma SavedStays(st: State, events: seq<Event>)
    requires IsRun(st, events)
    ensures 0 <= Final(st, events).saved.offset
  {
    ChainFlags.PruningIsEarned(st, events);
  }

  // ---- which rows an iteration can lose

  lemma {:induction false} ItemsKeepRows(d: Desk, kind: Kind, items: seq<Item>)
    ensures d.store.rows.Keys <= SyncItems(d, kind, items).0.store.rows.Keys
  {
    if items == [] {
    } else {
      ItemsKeepRows(d, kind, items[..|items| - 1]);
    }
  }

  lemma {:induction false} WalkKeepsRows(d: Desk, phase: Phase, start: int, pages: seq<Page>)
    ensures d.store.rows.Keys <= Walk(d, phase, start, pages).0.store.rows.Keys
  {
    if pages == [] {
    } else {
      var init, last := pages[..|pages| - 1], pages[|pages| - 1];
      WalkKeepsRows(d, phase, start, init);
      var (s, w) := Walk(d, phase, start, init);
      if w.More? && last.Page? {
        ItemsKeepRows(s.Log(Requested(phase, w.offset)), KindOf(phase), last.items);
      }
    }
  }

  lemma {:induction false} RepliesKeepRows(s: Store, replies: seq<Reply>)
    ensures s.rows.Keys <= Fetched(s, replies).rows.Keys
  {
    if replies == [] {
    } else {
      RepliesKeepRows(s, replies[..|replies| - 1]);
    }
  }

  /** No call deletes a row. */
  lemma CallKeepsRows(st: State, a: Answers, kind: Kind)
    ensures st.StoreOf(kind).rows.Keys <= ChainSync(st, a).0.StoreOf(kind).rows.Keys
  {
    var d := st.Log(CallStarted(st.mem)).DeskOf(KindOf(st.mem.phase));
    if st.mem.phase == InvoiceMissed {
      RepliesKeepRows(st.invoices, a.replies);
    } else {
      WalkKeepsRows(d, st.mem.phase, st.mem.offset, a.pages);
    }
  }

  lemma GoneIsPruned(log: seq<Fact>, more: seq<Fact>, p: seq<Fact>, b: seq<Fact>, kind: Kind, id: uint64)
    requires GoesOn(log, more) && forall f | f in b :: f.Bumped?
    ensures Gone(log, more + p + b, kind, id) <==> exists f :: f in p && f.Pruned? && f.kind == kind && id in f.ids
  {
    var last := more + p + b;
    assert forall i | |log| <= i < |more| :: last[i] == more[i];
    assert forall i | |more| + |p| <= i < |last| :: last[i] in b;
    if Gone(log, last, kind, id) {
      var i :| |log| <= i < |last| && last[i].Pruned? && last[i].kind == kind && id in last[i].ids;
      assert last[i] == p[i - |more|];
    }
    if f :| f in p && f.Pruned? && f.kind == kind && id in f.ids {
      var i :| 0 <= i < |p| && p[i] == f;
      assert last[|more| + i] == f;
    }
  }

  /** What follows a call takes from a table exactly the ids it logs as pruned. */
  lemma RestRows(called: State, worked: Kind, r: Result, end: PruneEnd, drift: cint, kind: Kind)
    ensures var p := !r.failed && r.prune && worked == kind;
            BumpStep(PruneStep(called, worked, r, end, drift), worked, r).StoreOf(kind).rows ==
              if p then called.StoreOf(kind).rows - Deleted(called.StoreOf(kind).cache, DriftOf(drift), end)
              else called.StoreOf(kind).rows
  {
  }

  /** An iteration loses the rows that it logs as pruned, and no others. */
  lemma RowsFollowLog(s: State, env: Env, kind: Kind, id: uint64)
    ensures var r := Iterate(s, env);
            && (id in s.StoreOf(kind).rows && id !in r.StoreOf(kind).rows ==> Gone(s.log, r.log, kind, id))
            && (Gone(s.log, r.log, kind, id) ==> id !in r.StoreOf(kind).rows)
  {
    var p, b := IterateAdds(s, env);
    var (called, r) := ChainSync(s, env.answers);
    SyncLeaves(s, env.answers, kind, id);
    CallKeepsRows(s, env.answers, kind);
    GoneIsPruned(s.log, called.log, p, b, kind, id);
    RestRows(called, KindOf(s.mem.phase), r, env.prune, env.drift, kind);
    IterateLog(s, env);
  }
}
