/** The chain against a remote list that does not change: an interrupted pass
    syncs each page once, in order, and an undisturbed cycle asks for exactly
    the pages four plain walks would ask for (src/bx_chain.c:223-314,
    src/bx_walk.c:39-98). */
module ChainCycle {
  import opened MachineIntegers
  import opened ItemSync
  import opened Prune
  import opened ChainCursor
  import opened ChainSpec

  // ---- picking facts out of a log

  function Pick(log: seq<Fact>, keep: Fact -> bool): seq<Fact> {
    if log == [] then []
    else Pick(log[..|log| - 1], keep) + (if keep(log[|log| - 1]) then [log[|log| - 1]] else [])
  }

  /** A page done, or a checkpoint past one. */
  predicate IsProgress(f: Fact) { f.Synced? || (f.Wrote? && f.cursor.offset > 0) }

  lemma PickOne(log: seq<Fact>, f: Fact, keep: Fact -> bool)
    ensures Pick(log + [f], keep) == Pick(log, keep) + (if keep(f) then [f] else [])
  {
    assert (log + [f])[..|log|] == log;
  }

  lemma PickWritten(log: seq<Fact>, c: Cursor, save: Save, keep: Fact -> bool)
    requires !keep(Wrote(c))
    ensures Pick(log + Writing(c, save), keep) == Pick(log, keep)
  {
    if save == SaveRefused {
      assert log + Writing(c, save) == log;
    } else {
      PickOne(log, Wrote(c), keep);
    }
  }

  lemma {:induction false} PickNone(log: seq<Fact>, more: seq<Fact>, keep: Fact -> bool)
    requires forall f | f in more :: !keep(f)
    ensures Pick(log + more, keep) == Pick(log, keep)
  {
    if more == [] {
      assert log + more == log;
    } else {
      var init := more[..|more| - 1];
      PickNone(log, init, keep);
      assert log + more == log + init + [more[|more| - 1]];
      PickOne(log + init, more[|more| - 1], keep);
    }
  }

  lemma ItemPick(d: Desk, kind: Kind, item: Item, keep: Fact -> bool)
    requires !keep(Listed(kind, item.id))
    ensures var r := ItemStep(d, kind, item);
            r.mem == d.mem && r.saved == d.saved && Pick(r.log, keep) == Pick(d.log, keep)
  {
    PickOne(d.log, Listed(kind, item.id), keep);
  }

  /** Syncing rows logs listings only. */
  lemma {:induction false} ItemsPick(d: Desk, kind: Kind, items: seq<Item>, keep: Fact -> bool)
    requires forall k, id :: !keep(Listed(k, id))
    ensures var r := SyncItems(d, kind, items).0;
            r.mem == d.mem && r.saved == d.saved && Pick(r.log, keep) == Pick(d.log, keep)
  {
    if items == [] {
    } else {
      var init, last := items[..|items| - 1], items[|items| - 1];
      ItemsPick(d, kind, init, keep);
      ItemPick(SyncItems(d, kind, init).0, kind, last, keep);
    }
  }

  // ---- an interrupted pass

  /** Pages from one number up to another, each synced and then checkpointed, once and in order. */
  function Progress(phase: Phase, from: nat, to: nat): seq<Fact>
    requires from <= to && LIST_LIMIT * to <= INT_MAX
  {
    if from == to then []
    else Progress(phase, from, to - 1) +
         [Synced(phase, LIST_LIMIT * (to - 1)), Wrote(Cursor(phase, LIST_LIMIT * to))]
  }

  /** A remote list of n pages answers a walk that begins at page from: each page
      is lost, or it is empty exactly past the end. What the rows hold, and
      whether one of them fails, is open; checkpoints are written. */
  predicate Truthful(pages: seq<Page>, from: nat, n: nat) {
    forall i | 0 <= i < |pages| && pages[i].Page? ::
      pages[i].save == SaveDone && (pages[i].items == [] <==> n <= from + i)
  }

  /** A walk from page j has come to page k. */
  predicate CameTo(d: Desk, r: Desk, phase: Phase, j: nat, k: nat, n: nat) {
    && j <= k <= n && LIST_LIMIT * n <= INT_MAX
    && r.mem == r.saved && r.mem.phase == phase && r.mem.offset as int == LIST_LIMIT * k
    && Pick(r.log, IsProgress) == Pick(d.log, IsProgress) + Progress(phase, j, k)
  }

  lemma LastPageOnce(d: Desk, s: Desk, phase: Phase, j: nat, n: nat)
    requires CameTo(d, s, phase, j, n, n)
    ensures CameTo(d, s.Log(Ended(phase, LIST_LIMIT * n)), phase, j, n, n)
  {
    PickOne(s.log, Ended(phase, LIST_LIMIT * n), IsProgress);
  }

  lemma FullPagePick(log: seq<Fact>, phase: Phase, j: nat, k: nat)
    requires j <= k && LIST_LIMIT * (k + 1) <= INT_MAX
    ensures var facts := [Synced(phase, LIST_LIMIT * k), Wrote(Cursor(phase, LIST_LIMIT * (k + 1)))];
            && Pick(log + [facts[0]] + [facts[1]], IsProgress) == Pick(log, IsProgress) + facts
            && Progress(phase, j, k + 1) == Progress(phase, j, k) + facts
  {
    PickOne(log, Synced(phase, LIST_LIMIT * k), IsProgress);
    PickOne(log + [Synced(phase, LIST_LIMIT * k)], Wrote(Cursor(phase, LIST_LIMIT * (k + 1))), IsProgress);
  }

  lemma FullPageOnce(d: Desk, s: Desk, phase: Phase, j: nat, k: nat, n: nat)
    requires CameTo(d, s, phase, j, k, n) && k < n
    ensures var (r, w) := PageEnd(s, phase, LIST_LIMIT * k, false, SaveDone);
            CameTo(d, r, phase, j, k + 1, n) && w == More(LIST_LIMIT * (k + 1))
  {
    FullPagePick(s.log, phase, j, k);
  }

  lemma PageEndOnce(d: Desk, s: Desk, phase: Phase, j: nat, k: nat, n: nat)
    requires CameTo(d, s, phase, j, k, n) && LIST_LIMIT * n <= INT_MAX
    ensures var (r, w) := PageEnd(s, phase, LIST_LIMIT * k, k == n, SaveDone);
            && CameTo(d, r, phase, j, if k == n then k else k + 1, n)
            && w == if k == n then Finished else More(LIST_LIMIT * (k + 1))
  {
    if k == n {
      LastPageOnce(d, s, phase, j, n);
    } else {
      FullPageOnce(d, s, phase, j, k, n);
    }
  }

  lemma PageOnce(d: Desk, s: Desk, phase: Phase, page: Page, j: nat, k: nat, n: nat)
    requires CameTo(d, s, phase, j, k, n) && LIST_LIMIT * n <= INT_MAX
    requires page.Page? ==> page.save == SaveDone && (page.items == [] <==> k == n)
    ensures var (r, w) := PageStep(s, phase, LIST_LIMIT * k, page);
            && CameTo(d, r, phase, j, if w.More? then k + 1 else k, n)
            && (w.More? ==> w.offset == LIST_LIMIT * (k + 1))
            && (w.Finished? ==> k == n)
  {
    var asked := s.Log(Requested(phase, LIST_LIMIT * k));
    PickOne(s.log, Requested(phase, LIST_LIMIT * k), IsProgress);
    if page.Page? {
      ItemsPick(asked, KindOf(phase), page.items, IsProgress);
      PageEndOnce(d, SyncItems(asked, KindOf(phase), page.items).0, phase, j, k, n);
    }
  }

  /** The same, and how the walk of that many pages ended. */
  predicate CameThrough(d: Desk, r: Desk, w: Walking, phase: Phase, pages: nat, j: nat, k: nat, n: nat) {
    && CameTo(d, r, phase, j, k, n)
    && (w.More? ==> k == j + pages && w.offset == LIST_LIMIT * k)
    && (w.Finished? ==> k == n)
  }

  lemma NextPageOnce(d: Desk, s: Desk, offset: nat, phase: Phase, page: Page, pages: nat, j: nat, k: nat, n: nat)
    returns (next: nat)
    requires CameThrough(d, s, More(offset), phase, pages, j, k, n) && LIST_LIMIT * n <= INT_MAX
    requires page.Page? ==> page.save == SaveDone && (page.items == [] <==> n <= k)
    ensures var (r, w) := PageStep(s, phase, offset, page);
            CameThrough(d, r, w, phase, pages + 1, j, next, n)
  {
    PageOnce(d, s, phase, page, j, k, n);
    next := if PageStep(s, phase, offset, page).1.More? then k + 1 else k;
  }

  lemma {:induction false} WalkOnce(d: Desk, phase: Phase, pages: seq<Page>, j: nat, n: nat) returns (k: nat)
    requires d.mem == d.saved && d.mem.phase == phase && d.mem.offset as int == LIST_LIMIT * j
    requires j <= n && LIST_LIMIT * n <= INT_MAX && Truthful(pages, j, n)
    ensures var (r, w) := Walk(d, phase, d.mem.offset, pages);
            CameThrough(d, r, w, phase, |pages|, j, k, n)
  {
    if pages == [] {
      k := j;
      assert Progress(phase, j, j) == [];
    } else {
      var init, last := pages[..|pages| - 1], pages[|pages| - 1];
      k := WalkOnce(d, phase, init, j, n);
      var (s, w) := Walk(d, phase, d.mem.offset, init);
      if w.More? {
        k := NextPageOnce(d, s, w.offset, phase, last, |init|, j, k, n);
      }
    }
  }

  /** The next event of a pass over a list of n pages: a restart, or an iteration
      with any page errors but all saves succeeding. */
  predicate Disturbed(st: State, e: Event, n: nat) {
    e.Iteration? ==>
      && e.env.answers.save == SaveDone && 0 <= st.mem.offset
      && Truthful(e.env.answers.pages, st.mem.offset as int / LIST_LIMIT, n)
  }

  /** Where a pass has come to since st: still in its phase, at page k; or in a
      later one, all n pages done. */
  ghost predicate Passed(st: State, s: State, phase: Phase, j: nat, k: nat, n: nat) {
    && j <= k <= n && LIST_LIMIT * n <= INT_MAX
    && Pick(s.log, IsProgress) == Pick(st.log, IsProgress) + Progress(phase, j, k)
    && s.mem == s.saved
    && (if s.mem.phase == phase then s.mem.offset as int == LIST_LIMIT * k else k == n && s.mem.offset == 0)
  }

  lemma CalledOnce(st: State, a: Answers, j: nat, n: nat) returns (k: nat)
    requires st.mem == st.saved && st.mem.phase != InvoiceMissed && st.mem.offset as int == LIST_LIMIT * j
    requires j <= n && LIST_LIMIT * n <= INT_MAX && a.save == SaveDone && Truthful(a.pages, j, n)
    ensures Passed(st, Called(st, a).0, st.mem.phase, j, k, n)
  {
    var phase := st.mem.phase;
    var d := st.DeskOf(KindOf(phase));
    k := WalkOnce(d, phase, a.pages, j, n);
    var r := Walk(d, phase, d.mem.offset, a.pages).0;
    forall p: Phase
      ensures Pick(r.log + [Entered(p)] + Writing(Cursor(p, 0), a.save), IsProgress) == Pick(r.log, IsProgress)
    {
      PickOne(r.log, Entered(p), IsProgress);
      PickWritten(r.log + [Entered(p)], Cursor(p, 0), a.save, IsProgress);
    }
  }

  /** What an iteration adds around its call. */
  lemma AroundPrune(st: State, kind: Kind, r: Result, end: PruneEnd, drift: cint, keep: Fact -> bool)
    requires forall k, ids, drift :: !keep(Pruned(k, ids, drift))
    ensures var s := PruneStep(st, kind, r, end, drift);
            s.mem == st.mem && s.saved == st.saved && Pick(s.log, keep) == Pick(st.log, keep)
  {
    if !r.failed && r.prune {
      PickOne(st.log, Pruned(kind, Deleted(st.StoreOf(kind).cache, DriftOf(drift), end), DriftOf(drift)), keep);
    }
  }

  lemma AroundBump(st: State, kind: Kind, r: Result, keep: Fact -> bool)
    requires forall k :: !keep(Bumped(k))
    ensures var s := BumpStep(st, kind, r);
            s.mem == st.mem && s.saved == st.saved && Pick(s.log, keep) == Pick(st.log, keep)
  {
    PickOne(st.log, Bumped(kind), keep);
  }

  lemma AroundCall(st: State, env: Env, keep: Fact -> bool)
    requires forall k, ids, drift :: !keep(Pruned(k, ids, drift))
    requires forall k :: !keep(Bumped(k))
    ensures var called, s := ChainSync(st, env.answers).0, Iterate(st, env);
            s.mem == called.mem && s.saved == called.saved && Pick(s.log, keep) == Pick(called.log, keep)
  {
    var (called, r) := ChainSync(st, env.answers);
    var kind := KindOf(st.mem.phase);
    AroundPrune(called, kind, r, env.prune, env.drift, keep);
    AroundBump(PruneStep(called, kind, r, env.prune, env.drift), kind, r, keep);
  }

  lemma PassedSame(st: State, s: State, st': State, s': State, phase: Phase, j: nat, k: nat, n: nat)
    requires Passed(st, s, phase, j, k, n) && s'.mem == s.mem && s'.saved == s.saved
    requires Pick(st'.log, IsProgress) == Pick(st.log, IsProgress) && Pick(s'.log, IsProgress) == Pick(s.log, IsProgress)
    ensures Passed(st', s', phase, j, k, n)
  {
  }

  lemma IterationOnce(st: State, env: Env, j: nat, n: nat) returns (k: nat)
    requires st.mem == st.saved && st.mem.phase != InvoiceMissed && st.mem.offset as int == LIST_LIMIT * j
    requires j <= n && LIST_LIMIT * n <= INT_MAX && Disturbed(st, Iteration(env), n)
    ensures Passed(st, Iterate(st, env), st.mem.phase, j, k, n)
  {
    var started := st.Log(CallStarted(st.mem));
    PickOne(st.log, CallStarted(st.mem), IsProgress);
    k := CalledOnce(started, env.answers, j, n);
    AroundCall(st, env, IsProgress);
    PassedSame(started, ChainSync(st, env.answers).0, st, Iterate(st, env), st.mem.phase, j, k, n);
  }

  lemma StepOnce(st: State, e: Event, j: nat, n: nat) returns (k: nat)
    requires st.mem == st.saved && st.mem.phase != InvoiceMissed && st.mem.offset as int == LIST_LIMIT * j
    requires j <= n && LIST_LIMIT * n <= INT_MAX && Disturbed(st, e, n)
    ensures Passed(st, After(st, e), st.mem.phase, j, k, n)
  {
    match e
    case Iteration(env) => k := IterationOnce(st, env, j, n);
    case Restart(c, p, i) =>
      k := j;
      PickOne(st.log, Booted(st.saved), IsProgress);
      assert Progress(st.mem.phase, j, j) == [];
  }

  lemma PassedMore(st: State, s: State, r: State, phase: Phase, j: nat, k: nat, n: nat)
    requires Passed(st, s, phase, 0, j, n) && s.mem.phase == phase && Passed(s, r, phase, j, k, n)
    ensures Passed(st, r, phase, 0, k, n)
  {
    TwoRanges(phase, 0, j, k);
  }

  lemma {:induction false} TwoRanges(phase: Phase, i: nat, j: nat, k: nat)
    requires i <= j <= k && LIST_LIMIT * k <= INT_MAX
    ensures Progress(phase, i, j) + Progress(phase, j, k) == Progress(phase, i, k)
  {
    if j == k {
    } else {
      TwoRanges(phase, i, j, k - 1);
    }
  }

  /** A pass over a list of n pages, interrupted by any lost pages, failing rows
      and restarts, syncs and checkpoints every page exactly once, in order, by
      the time it leaves its phase. */
  lemma {:induction false} PassSyncsEachPageOnce(st: State, events: seq<Event>, phase: Phase, n: nat) returns (k: nat)
    requires phase != InvoiceMissed && LIST_LIMIT * n <= INT_MAX
    requires st.mem == st.saved == Cursor(phase, 0)
    requires forall i | 0 <= i < |events| ::
      Final(st, events[..i]).mem.phase == phase && Disturbed(Final(st, events[..i]), events[i], n)
    ensures Passed(st, Final(st, events), phase, 0, k, n)
  {
    if events == [] {
      k := 0;
      assert Progress(phase, 0, 0) == [];
    } else {
      var init := events[..|events| - 1];
      forall i | 0 <= i < |init|
        ensures Final(st, init[..i]).mem.phase == phase && Disturbed(Final(st, init[..i]), init[i], n)
      {
        assert init[..i] == events[..i];
      }
      var j := PassSyncsEachPageOnce(st, init, phase, n);
      var s := Final(st, init);
      assert events[..|events| - 1] == init;
      k := StepOnce(s, events[|events| - 1], j, n);
      PassedMore(st, s, After(s, events[|events| - 1]), phase, j, k, n);
    }
  }

  // ---- an undisturbed cycle

  predicate IsTraced(f: Fact) { f.Requested? || f.Pruned? || f.Bumped? }

  /** The list requests, the prunings and the version bumps of a log, in order. */
  function Trace(log: seq<Fact>): seq<Fact> {
    Pick(log, IsTraced)
  }

  /** What a plain walk of a list of n pages asks for: each page, then the empty one after them. */
  function PlainWalk(phase: Phase, n: nat): seq<Fact> {
    seq(n + 1, i => Requested(phase, LIST_LIMIT * i))
  }

  predicate NeverFails(item: Item) {
    match item.outcome
    case Errored => false
    case Skipped => true
    case Stored(fails) => !fails
    case Uncached(fails) => !fails
    case Unreadable(fails) => !fails
  }

  predicate CleanPage(page: Page, last: bool) {
    && page.Page? && page.save == SaveDone && (page.items == [] <==> last)
    && forall item | item in page.items :: NeverFails(item)
  }

  /** The first answers of a list of n pages with no error of any kind. */
  predicate Clean(pages: seq<Page>, n: nat) {
    |pages| <= n + 1 && forall i | 0 <= i < |pages| :: CleanPage(pages[i], i == n)
  }

  lemma {:induction false} CleanItems(d: Desk, kind: Kind, items: seq<Item>)
    requires forall item | item in items :: NeverFails(item)
    ensures !SyncItems(d, kind, items).1
  {
    if items == [] {
    } else {
      assert items[|items| - 1] in items;
      CleanItems(d, kind, items[..|items| - 1]);
    }
  }

  lemma FullPageTrace(s: Desk, phase: Phase, offset: nat)
    requires offset + LIST_LIMIT <= INT_MAX
    ensures var (r, w) := PageEnd(s, phase, offset, false, SaveDone);
            w == More(offset + LIST_LIMIT) && Trace(r.log) == Trace(s.log)
  {
    PickOne(s.log, Synced(phase, offset), IsTraced);
    PickWritten(s.log + [Synced(phase, offset)], Cursor(phase, offset + LIST_LIMIT), SaveDone, IsTraced);
  }

  lemma CleanPageEnd(s: Desk, phase: Phase, k: nat, n: nat)
    requires k <= n && LIST_LIMIT * n <= INT_MAX
    ensures var (r, w) := PageEnd(s, phase, LIST_LIMIT * k, k == n, SaveDone);
            && w == (if k == n then Finished else More(LIST_LIMIT * (k + 1)))
            && Trace(r.log) == Trace(s.log)
  {
    if k == n {
      PickOne(s.log, Ended(phase, LIST_LIMIT * k), IsTraced);
    } else {
      FullPageTrace(s, phase, LIST_LIMIT * k);
    }
  }

  lemma CleanPageStep(d: Desk, phase: Phase, page: Page, k: nat, n: nat)
    requires k <= n && LIST_LIMIT * n <= INT_MAX && CleanPage(page, k == n)
    ensures var (r, w) := PageStep(d, phase, LIST_LIMIT * k, page);
            && w == (if k == n then Finished else More(LIST_LIMIT * (k + 1)))
            && Trace(r.log) == Trace(d.log) + [Requested(phase, LIST_LIMIT * k)]
  {
    var asked := d.Log(Requested(phase, LIST_LIMIT * k));
    PickOne(d.log, Requested(phase, LIST_LIMIT * k), IsTraced);
    CleanItems(asked, KindOf(phase), page.items);
    ItemsPick(asked, KindOf(phase), page.items, IsTraced);
    CleanPageEnd(SyncItems(asked, KindOf(phase), page.items).0, phase, k, n);
  }

  lemma PlainWalkMore(phase: Phase, n: nat, k: nat)
    requires k <= n
    ensures PlainWalk(phase, n)[..k + 1] == PlainWalk(phase, n)[..k] + [Requested(phase, LIST_LIMIT * k)]
  {
  }

  lemma {:induction false} CleanWalk(d: Desk, phase: Phase, pages: seq<Page>, n: nat)
    requires Clean(pages, n) && LIST_LIMIT * n <= INT_MAX
    ensures var (r, w) := Walk(d, phase, 0, pages);
            && w == (if |pages| == n + 1 then Finished else More(LIST_LIMIT * |pages|))
            && Trace(r.log) == Trace(d.log) + PlainWalk(phase, n)[..|pages|]
  {
    if pages == [] {
    } else {
      var k := |pages| - 1;
      CleanWalk(d, phase, pages[..k], n);
      var s := Walk(d, phase, 0, pages[..k]).0;
      PlainWalkMore(phase, n, k);
      CleanPageStep(s, phase, pages[k], k, n);
      assert Walk(d, phase, 0, pages) == PageStep(s, phase, LIST_LIMIT * k, pages[k]);
    }
  }

  /** The remote's lists, by their number of pages. */
  datatype Remote = Remote(active: nat, archived: nat, projects: nat, invoices: nat)
  {
    function Pages(phase: Phase): nat {
      match phase
      case ContactActive => active
      case ContactArchived => archived
      case Project => projects
      case InvoiceList => invoices
      case InvoiceMissed => 0
    }
  }

  function NextPhase(phase: Phase): Phase {
    match phase
    case ContactActive => ContactArchived
    case ContactArchived => Project
    case Project => InvoiceList
    case InvoiceList => InvoiceMissed
    case InvoiceMissed => ContactActive
  }

  /** No error: the whole list is answered, every due id is fetched, the cursor is saved. */
  predicate CleanAnswers(a: Answers, phase: Phase, n: nat) {
    a.save == SaveDone && if phase == InvoiceMissed then a.fetched else |a.pages| == n + 1 && Clean(a.pages, n)
  }

  function WalkTrace(phase: Phase, n: nat): seq<Fact> {
    if phase == InvoiceMissed then [] else PlainWalk(phase, n)
  }

  /** What a cycle looks like from outside: cursors, flags and trace. */
  datatype Position = Position(mem: Cursor, saved: Cursor, contactFromZero: bool, invoiceFromZero: bool, trace: seq<Fact>)
  {
    predicate RaisesFlag() {
      match mem.phase
      case ContactArchived => contactFromZero
      case Project => true
      case InvoiceMissed => invoiceFromZero
      case _ => false
    }

    /** The pruning an iteration from here runs, if its call raises the flag. */
    predicate Prunes(facts: seq<Fact>) {
      if RaisesFlag() then |facts| == 1 && facts[0].Pruned? && facts[0].kind == KindOf(mem.phase)
      else facts == []
    }

    /** The phase is the last one of its resource. */
    predicate IsLast() {
      KindOf(NextPhase(mem.phase)) != KindOf(mem.phase)
    }

    /** What an undisturbed call leads to. */
    function Walked(n: nat): Position {
      var next, kind := Cursor(NextPhase(mem.phase), 0), KindOf(mem.phase);
      Position(next, next,
               if kind == Contacts then mem.phase == ContactActive else contactFromZero,
               if kind == Invoices then mem.phase == InvoiceList else invoiceFromZero,
               trace + WalkTrace(mem.phase, n))
    }

    /** And the whole iteration around it: the last phase of a resource bumps its version. */
    function Next(n: nat, pruned: seq<Fact>): Position {
      var p := Walked(n);
      p.(trace := p.trace + pruned + if IsLast() then [Bumped(KindOf(mem.phase))] else [])
    }
  }

  function At(st: State): Position {
    Position(st.mem, st.saved, st.contactFromZero, st.invoiceFromZero, Trace(st.log))
  }

  /** What ends an undisturbed call: the next phase is entered and the row is written. */
  lemma CleanAdvance(d: Desk, phase: Phase)
    ensures var (r, failed) := Advance(d, phase, SaveDone);
            !failed && r.mem == r.saved == Cursor(phase, 0) && Trace(r.log) == Trace(d.log)
  {
    PickOne(d.log, Entered(phase), IsTraced);
    PickWritten(d.log + [Entered(phase)], Cursor(phase, 0), SaveDone, IsTraced);
  }

  lemma CleanCall(st: State, a: Answers, n: nat)
    requires st.mem.offset == 0 && CleanAnswers(a, st.mem.phase, n) && LIST_LIMIT * n <= INT_MAX
    ensures var (r, result) := Called(st, a);
            !result.failed && result.prune == At(st).RaisesFlag() && result.bump == At(st).IsLast() &&
            At(r) == At(st).Walked(n)
  {
    var phase := st.mem.phase;
    var d := st.DeskOf(KindOf(phase));
    if phase == InvoiceMissed {
      PickNone(st.log, AskedFacts(a.replies), IsTraced);
      PickOne(st.log + AskedFacts(a.replies), MissedDone, IsTraced);
      CleanAdvance(FetchStep(d, a.replies).Log(MissedDone), ContactActive);
    } else {
      CleanWalk(d, phase, a.pages, n);
      CleanAdvance(Walk(d, phase, 0, a.pages).0, NextPhase(phase));
      assert PlainWalk(phase, n)[..n + 1] == PlainWalk(phase, n);
    }
  }

  /** Pruning and bumping leave cursors and flags alone and trace a pruning that was asked for. */
  lemma PruneTrace(st: State, kind: Kind, r: Result, end: PruneEnd, drift: cint) returns (pruned: seq<Fact>)
    requires !r.failed
    ensures At(PruneStep(st, kind, r, end, drift)) == At(st).(trace := Trace(st.log) + pruned)
    ensures if r.prune then |pruned| == 1 && pruned[0].Pruned? && pruned[0].kind == kind else pruned == []
  {
    var f := Pruned(kind, Deleted(st.StoreOf(kind).cache, DriftOf(drift), end), DriftOf(drift));
    PickOne(st.log, f, IsTraced);
    pruned := if r.prune then [f] else [];
  }

  lemma BumpTrace(st: State, kind: Kind, r: Result)
    ensures At(BumpStep(st, kind, r)) == At(st).(trace := Trace(st.log) + if r.bump then [Bumped(kind)] else [])
  {
    PickOne(st.log, Bumped(kind), IsTraced);
  }

  lemma AfterCall(st: State, kind: Kind, r: Result, end: PruneEnd, drift: cint) returns (pruned: seq<Fact>)
    requires !r.failed
    ensures At(BumpStep(PruneStep(st, kind, r, end, drift), kind, r)) ==
      At(st).(trace := Trace(st.log) + pruned + if r.bump then [Bumped(kind)] else [])
    ensures if r.prune then |pruned| == 1 && pruned[0].Pruned? && pruned[0].kind == kind else pruned == []
  {
    pruned := PruneTrace(st, kind, r, end, drift);
    BumpTrace(PruneStep(st, kind, r, end, drift), kind, r);
  }

  lemma CleanChainSync(st: State, a: Answers, n: nat)
    requires st.mem.offset == 0 && CleanAnswers(a, st.mem.phase, n) && LIST_LIMIT * n <= INT_MAX
    ensures var (r, result) := ChainSync(st, a);
            !result.failed && result.prune == At(st).RaisesFlag() && result.bump == At(st).IsLast() &&
            At(r) == At(st).Walked(n)
  {
    var started := st.Log(CallStarted(st.mem));
    PickOne(st.log, CallStarted(st.mem), IsTraced);
    assert At(started) == At(st);
    CleanCall(started, a, n);
  }

  lemma IterateIs(st: State, env: Env, kind: Kind, called: State, r: Result)
    requires kind == KindOf(st.mem.phase) && ChainSync(st, env.answers) == (called, r)
    ensures Iterate(st, env) == BumpStep(PruneStep(called, kind, r, env.prune, env.drift), kind, r)
  {
  }

  lemma CleanAfterCall(p: Position, called: State, kind: Kind, r: Result, env: Env, n: nat) returns (pruned: seq<Fact>)
    requires !r.failed && r.prune == p.RaisesFlag() && r.bump == p.IsLast()
    requires kind == KindOf(p.mem.phase) && At(called) == p.Walked(n)
    ensures At(BumpStep(PruneStep(called, kind, r, env.prune, env.drift), kind, r)) == p.Next(n, pruned)
    ensures p.Prunes(pruned)
  {
    pruned := AfterCall(called, kind, r, env.prune, env.drift);
  }

  lemma CleanIteration(st: State, env: Env, n: nat) returns (pruned: seq<Fact>)
    requires st.mem.offset == 0 && CleanAnswers(env.answers, st.mem.phase, n) && LIST_LIMIT * n <= INT_MAX
    ensures At(Iterate(st, env)) == At(st).Next(n, pruned) && At(st).Prunes(pruned)
  {
    CleanChainSync(st, env.answers, n);
    var (called, r) := ChainSync(st, env.answers);
    var kind := KindOf(st.mem.phase);
    pruned := CleanAfterCall(At(st), called, kind, r, env, n);
    IterateIs(st, env, kind, called, r);
  }

  /** The i-th event of a cycle is an iteration without any error. */
  predicate CleanEvent(e: Event, phase: Phase, remote: Remote) {
    e.Iteration? && CleanAnswers(e.env.answers, phase, remote.Pages(phase))
  }

  /** Where i undisturbed iterations from the start of a cycle lead. */
  function Reached(p: Position, remote: Remote, pruned: seq<seq<Fact>>, i: nat): Position
    requires i <= |pruned| <= 5
  {
    if i == 0 then p else Reached(p, remote, pruned, i - 1).Next(remote.Pages(PHASES[i - 1]), pruned[i - 1])
  }

  lemma {:induction false} ReachedSame(p: Position, remote: Remote, pruned: seq<seq<Fact>>, more: seq<seq<Fact>>, i: nat)
    requires i <= |pruned| <= |more| <= 5 && pruned <= more
    ensures Reached(p, remote, pruned, i) == Reached(p, remote, more, i)
  {
    if i == 0 {
    } else {
      ReachedSame(p, remote, pruned, more, i - 1);
    }
  }

  lemma CleanNext(s: State, r: State, e: Event, phase: Phase, remote: Remote) returns (pruned: seq<Fact>)
    requires CleanEvent(e, phase, remote) && LIST_LIMIT * remote.Pages(phase) <= INT_MAX
    requires r == After(s, e) && s.mem == Cursor(phase, 0)
    ensures At(r) == At(s).Next(remote.Pages(phase), pruned) && At(s).Prunes(pruned)
  {
    pruned := CleanIteration(s, e.env, remote.Pages(phase));
  }

  /** More prunings do not change where the first ones led. */
  lemma ReachedMore(p: Position, remote: Remote, before: seq<seq<Fact>>, last: seq<Fact>)
    requires |before| < 5
    requires forall j | 0 <= j < |before| :: Reached(p, remote, before, j).Prunes(before[j])
    requires Reached(p, remote, before, |before|).Prunes(last)
    ensures var more := before + [last];
            && Reached(p, remote, more, |more|) ==
                 Reached(p, remote, before, |before|).Next(remote.Pages(PHASES[|before|]), last)
            && forall j | 0 <= j < |more| :: Reached(p, remote, more, j).Prunes(more[j])
  {
    var more := before + [last];
    forall j | 0 <= j <= |before| ensures Reached(p, remote, more, j) == Reached(p, remote, before, j) {
      ReachedSame(p, remote, before, more, j);
    }
  }

  /** i undisturbed iterations led from p to r, pruning what was raised. */
  ghost predicate Ran(p: Position, r: Position, remote: Remote, pruned: seq<seq<Fact>>, i: nat) {
    && |pruned| == i <= 5
    && r == Reached(p, remote, pruned, i)
    && (forall j | 0 <= j < i :: Reached(p, remote, pruned, j).Prunes(pruned[j]))
    && (i < 5 ==> r.mem == Cursor(PHASES[i], 0))
  }

  lemma RanMore(p: Position, q: Position, remote: Remote, before: seq<seq<Fact>>, i: nat, last: seq<Fact>)
    requires i < 5 && Ran(p, q, remote, before, i) && q.Prunes(last)
    ensures Ran(p, q.Next(remote.Pages(PHASES[i]), last), remote, before + [last], i + 1)
  {
    ReachedMore(p, remote, before, last);
  }

  lemma {:induction false} CleanRun(states: seq<State>, events: seq<Event>, remote: Remote, i: nat) returns (pruned: seq<seq<Fact>>)
    requires IsTrail(states, events) && states[0].mem == START && i <= |events| <= 5
    requires forall p: Phase :: LIST_LIMIT * remote.Pages(p) <= INT_MAX
    requires forall j | 0 <= j < |events| :: CleanEvent(events[j], PHASES[j], remote)
    ensures Ran(At(states[0]), At(states[i]), remote, pruned, i)
  {
    if i == 0 {
      pruned := [];
    } else {
      var before := CleanRun(states, events, remote, i - 1);
      var last := CleanNext(states[i - 1], states[i], events[i - 1], PHASES[i - 1], remote);
      RanMore(At(states[0]), At(states[i - 1]), remote, before, i - 1, last);
      pruned := before + [last];
    }
  }

  /** What the i-th undisturbed iteration of a cycle adds to the trace. */
  function Part(remote: Remote, pruned: seq<seq<Fact>>, i: nat): seq<Fact>
    requires i < |pruned| <= 5
  {
    WalkTrace(PHASES[i], remote.Pages(PHASES[i])) + pruned[i]
      + if i == 1 || i == 2 || i == 4 then [Bumped(KindOf(PHASES[i]))] else []
  }

  lemma PartIs(p: Position, remote: Remote, pruned: seq<seq<Fact>>, i: nat)
    requires i < |pruned| <= 5 && Reached(p, remote, pruned, i).mem == Cursor(PHASES[i], 0)
    ensures var q, r := Reached(p, remote, pruned, i), Reached(p, remote, pruned, i + 1);
            r.trace == q.trace + Part(remote, pruned, i) && r.mem == r.saved == Cursor(NextPhase(PHASES[i]), 0)
  {
  }

  /** Which phases of a cycle raise a flag: the second for contacts, the third for projects, the last for invoices. */
  lemma FlagsOfCycle(p: Position, remote: Remote, pruned: seq<seq<Fact>>)
    requires p.mem == START && |pruned| == 5
    ensures Reached(p, remote, pruned, 1).RaisesFlag() && Reached(p, remote, pruned, 2).RaisesFlag()
    ensures !Reached(p, remote, pruned, 0).RaisesFlag() && !Reached(p, remote, pruned, 3).RaisesFlag()
    ensures Reached(p, remote, pruned, 4).RaisesFlag()
    ensures forall i | 0 <= i < 5 :: Reached(p, remote, pruned, i).mem == Cursor(PHASES[i], 0)
  {
    assert Reached(p, remote, pruned, 0) == p;
    assert Reached(p, remote, pruned, 1) == p.Next(remote.Pages(ContactActive), pruned[0]);
    assert Reached(p, remote, pruned, 2) == Reached(p, remote, pruned, 1).Next(remote.Pages(ContactArchived), pruned[1]);
    assert Reached(p, remote, pruned, 3) == Reached(p, remote, pruned, 2).Next(remote.Pages(Project), pruned[2]);
    assert Reached(p, remote, pruned, 4) == Reached(p, remote, pruned, 3).Next(remote.Pages(InvoiceList), pruned[3]);
  }

  lemma FivePositions(p: Position, remote: Remote, pruned: seq<seq<Fact>>) returns (c: Fact, j: Fact, i: Fact)
    requires p.mem == START && |pruned| == 5
    requires forall j | 0 <= j < 5 :: Reached(p, remote, pruned, j).Prunes(pruned[j])
    ensures pruned == [[], [c], [j], [], [i]]
    ensures c.Pruned? && c.kind == Contacts
    ensures j.Pruned? && j.kind == Projects
    ensures i.Pruned? && i.kind == Invoices
  {
    FlagsOfCycle(p, remote, pruned);
    assert Reached(p, remote, pruned, 0).Prunes(pruned[0]) && Reached(p, remote, pruned, 1).Prunes(pruned[1]);
    assert Reached(p, remote, pruned, 2).Prunes(pruned[2]) && Reached(p, remote, pruned, 3).Prunes(pruned[3]);
    assert Reached(p, remote, pruned, 4).Prunes(pruned[4]);
    c, j, i := pruned[1][0], pruned[2][0], pruned[4][0];
    assert pruned[1] == [c] && pruned[2] == [j] && pruned[4] == [i];
  }

  /** What an undisturbed cycle traces: four plain walks, and after the last walk of
      each resource its one pruning and its one bump. */
  function CycleTrace(remote: Remote, contacts: Fact, projects: Fact, invoices: Fact): seq<Fact> {
    PlainWalk(ContactActive, remote.active)
    + (PlainWalk(ContactArchived, remote.archived) + [contacts, Bumped(Contacts)])
    + (PlainWalk(Project, remote.projects) + [projects, Bumped(Projects)])
    + PlainWalk(InvoiceList, remote.invoices) + [invoices, Bumped(Invoices)]
  }

  lemma PartsAre(remote: Remote, pruned: seq<seq<Fact>>, c: Fact, j: Fact, i: Fact)
    requires pruned == [[], [c], [j], [], [i]]
    ensures Part(remote, pruned, 0) == PlainWalk(ContactActive, remote.active)
    ensures Part(remote, pruned, 1) == PlainWalk(ContactArchived, remote.archived) + [c, Bumped(Contacts)]
    ensures Part(remote, pruned, 2) == PlainWalk(Project, remote.projects) + [j, Bumped(Projects)]
    ensures Part(remote, pruned, 3) == PlainWalk(InvoiceList, remote.invoices)
    ensures Part(remote, pruned, 4) == [i, Bumped(Invoices)]
  {
  }

  lemma FiveParts(t: seq<Fact>, a: seq<Fact>, b: seq<Fact>, c: seq<Fact>, d: seq<Fact>, e: seq<Fact>)
    ensures t + a + b + c + d + e == t + (a + b + c + d + e)
  {
  }

  lemma ReachedEnd(p: Position, remote: Remote, pruned: seq<seq<Fact>>)
    requires p.mem == START && |pruned| == 5
    ensures var r := Reached(p, remote, pruned, 5);
            && r.mem == r.saved == START
            && r.trace == p.trace + Part(remote, pruned, 0) + Part(remote, pruned, 1) + Part(remote, pruned, 2)
                            + Part(remote, pruned, 3) + Part(remote, pruned, 4)
  {
    PartIs(p, remote, pruned, 0);
    PartIs(p, remote, pruned, 1);
    PartIs(p, remote, pruned, 2);
    PartIs(p, remote, pruned, 3);
    PartIs(p, remote, pruned, 4);
  }

  lemma CycleEnd(p: Position, r: Position, remote: Remote, pruned: seq<seq<Fact>>) returns (c: Fact, j: Fact, i: Fact)
    requires p.mem == START && Ran(p, r, remote, pruned, 5)
    ensures r.mem == r.saved == START && r.trace == p.trace + CycleTrace(remote, c, j, i)
    ensures c.Pruned? && c.kind == Contacts
    ensures j.Pruned? && j.kind == Projects
    ensures i.Pruned? && i.kind == Invoices
  {
    c, j, i := FivePositions(p, remote, pruned);
    ReachedEnd(p, remote, pruned);
    PartsAre(remote, pruned, c, j, i);
    FiveParts(p.trace, Part(remote, pruned, 0), Part(remote, pruned, 1), Part(remote, pruned, 2),
              Part(remote, pruned, 3), Part(remote, pruned, 4));
  }

  /** Five undisturbed calls from the start of a cycle ask for exactly the pages
      of four plain walks from offset 0, prune each resource once after its last
      walk and then bump its version once, and end at the start of the next cycle. */
  lemma {:induction false} CycleIsFourPlainWalks(states: seq<State>, events: seq<Event>, remote: Remote)
    returns (contacts: Fact, projects: Fact, invoices: Fact)
    requires IsTrail(states, events) && |events| == 5 && states[0].mem == START
    requires forall p: Phase :: LIST_LIMIT * remote.Pages(p) <= INT_MAX
    requires forall i | 0 <= i < 5 :: CleanEvent(events[i], PHASES[i], remote)
    ensures states[5].mem == states[5].saved == START
    ensures Trace(states[5].log) == Trace(states[0].log) + CycleTrace(remote, contacts, projects, invoices)
    ensures contacts.Pruned? && contacts.kind == Contacts
    ensures projects.Pruned? && projects.kind == Projects
    ensures invoices.Pruned? && invoices.kind == Invoices
  {
    var pruned := CleanRun(states, events, remote, 5);
    contacts, projects, invoices := CycleEnd(At(states[0]), At(states[5]), remote, pruned);
  }
}
