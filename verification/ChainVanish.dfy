/** What vanished at the remote is deleted here: an object that the walks of as
    many undisturbed cycles as the drift did not show is among the ids of the next
    pruning of its resource (src/bx_chain.c:254-310, src/main.c:397-434,
    src/bx_prune.c:9-35). */
module ChainVanish {
  import opened MachineIntegers
  import opened CacheSnapshot
  import opened ItemSync
  import opened Prune
  import opened MissedIds
  import opened ChainCursor
  import opened ChainSpec
  import opened ChainDrift
  import opened ChainCycle

  /** The fact that a list, or an answer by id, showed the object. */
  predicate Shows(f: Fact, kind: Kind, id: uint64) {
    f == Listed(kind, id) || (kind == Invoices && f.Asked? && f.reply.id == id && !LeavesUnseen(f.reply))
  }

  /** A log went on, without pruning, bump or restart. */
  predicate GoesOn(before: seq<Fact>, after: seq<Fact>) {
    before <= after && forall i | |before| <= i < |after| :: !after[i].Pruned? && !after[i].Bumped? && !after[i].Booted?
  }

  /** Nothing since has shown the object. */
  predicate Hides(before: seq<Fact>, after: seq<Fact>, kind: Kind, id: uint64) {
    forall i | |before| <= i < |after| :: !Shows(after[i], kind, id)
  }

  // ---- a call leaves alone what it does not show

  ghost predicate Leaves(d: Desk, r: Desk, kind: Kind, id: uint64) {
    GoesOn(d.log, r.log) && (Hides(d.log, r.log, kind, id) ==> SameAt(d.store, r.store, id))
  }

  lemma LeavesTwice(d: Desk, s: Desk, r: Desk, kind: Kind, id: uint64)
    requires Leaves(d, s, kind, id) && Leaves(s, r, kind, id)
    ensures Leaves(d, r, kind, id)
  {
    assert forall i | |d.log| <= i < |s.log| :: r.log[i] == s.log[i];
  }

  lemma LogLeaves(d: Desk, mem: Cursor, saved: Cursor, facts: seq<Fact>, kind: Kind, id: uint64)
    requires forall f | f in facts :: !f.Pruned? && !f.Bumped? && !f.Booted?
    ensures Leaves(d, d.(mem := mem, saved := saved, log := d.log + facts), kind, id)
  {
    var log := d.log + facts;
    assert forall i | |d.log| <= i < |log| :: log[i] in facts;
  }

  lemma ItemLeaves(d: Desk, kind: Kind, item: Item, id: uint64)
    ensures Leaves(d, ItemStep(d, kind, item), kind, id)
  {
    var r := ItemStep(d, kind, item);
    if item.id == id && !item.outcome.Unreadable? {
      assert Shows(r.log[|d.log|], kind, id);
    }
  }

  lemma {:induction false} ItemsLeave(d: Desk, kind: Kind, items: seq<Item>, id: uint64)
    ensures Leaves(d, SyncItems(d, kind, items).0, kind, id)
  {
    if items == [] {
    } else {
      var init := items[..|items| - 1];
      ItemsLeave(d, kind, init, id);
      var (s, failed) := SyncItems(d, kind, init);
      if !failed {
        ItemLeaves(s, kind, items[|items| - 1], id);
        LeavesTwice(d, s, ItemStep(s, kind, items[|items| - 1]), kind, id);
      }
    }
  }

  lemma PageEndLeaves(d: Desk, phase: Phase, offset: nat, empty: bool, save: Save, id: uint64)
    ensures Leaves(d, PageEnd(d, phase, offset, empty, save).0, KindOf(phase), id)
  {
    var r := PageEnd(d, phase, offset, empty, save).0;
    var next := offset + LIST_LIMIT;
    var facts := if empty then [Ended(phase, offset)]
                 else [Synced(phase, offset)] + if next > INT_MAX then [] else Writing(Cursor(phase, next), save);
    assert r.log == d.log + facts;
    LogLeaves(d, r.mem, r.saved, facts, KindOf(phase), id);
  }

  lemma PageLeaves(d: Desk, phase: Phase, offset: nat, page: Page, id: uint64)
    ensures Leaves(d, PageStep(d, phase, offset, page).0, KindOf(phase), id)
  {
    var kind, asked := KindOf(phase), d.Log(Requested(phase, offset));
    LogLeaves(d, d.mem, d.saved, [Requested(phase, offset)], kind, id);
    if page.Page? {
      ItemsLeave(asked, kind, page.items, id);
      var (s, failed) := SyncItems(asked, kind, page.items);
      LeavesTwice(d, asked, s, kind, id);
      if !failed {
        PageEndLeaves(s, phase, offset, page.items == [], page.save, id);
        LeavesTwice(d, s, PageEnd(s, phase, offset, page.items == [], page.save).0, kind, id);
      }
    }
  }

  lemma {:induction false} WalkLeaves(d: Desk, phase: Phase, start: int, pages: seq<Page>, id: uint64)
    ensures Leaves(d, Walk(d, phase, start, pages).0, KindOf(phase), id)
  {
    if pages == [] {
    } else {
      var init := pages[..|pages| - 1];
      WalkLeaves(d, phase, start, init, id);
      var (s, w) := Walk(d, phase, start, init);
      if w.More? {
        PageLeaves(s, phase, w.offset, pages[|pages| - 1], id);
        LeavesTwice(d, s, PageStep(s, phase, w.offset, pages[|pages| - 1]).0, KindOf(phase), id);
      }
    }
  }

  lemma AdvanceLeaves(d: Desk, phase: Phase, save: Save, kind: Kind, id: uint64)
    ensures Leaves(d, Advance(d, phase, save).0, kind, id)
  {
    var r, facts := Advance(d, phase, save).0, [Entered(phase)] + Writing(Cursor(phase, 0), save);
    assert r.log == d.log + facts;
    LogLeaves(d, r.mem, r.saved, facts, kind, id);
  }

  lemma ReplyLeaves(d: Desk, r: Reply, id: uint64)
    ensures Leaves(d, d.(store := Replied(d.store, r)).Log(Asked(r)), Invoices, id)
  {
    var after := d.(store := Replied(d.store, r)).Log(Asked(r));
    if r.id == id && !LeavesUnseen(r) {
      assert Shows(after.log[|d.log|], Invoices, id);
    }
  }

  lemma {:induction false} RepliesLeave(d: Desk, replies: seq<Reply>, id: uint64)
    ensures Leaves(d, FetchStep(d, replies), Invoices, id)
  {
    if replies == [] {
      assert FetchStep(d, replies) == d;
    } else {
      var init, last := replies[..|replies| - 1], replies[|replies| - 1];
      RepliesLeave(d, init, id);
      ReplyLeaves(FetchStep(d, init), last, id);
      FetchStepMore(d, replies);
      LeavesTwice(d, FetchStep(d, init), FetchStep(d, replies), Invoices, id);
    }
  }

  lemma MissedLeaves(b: Bench, a: Answers, id: uint64)
    ensures Leaves(b.desk, CallMissed(b, a).0.desk, Invoices, id)
  {
    var d := FetchStep(b.desk, a.replies);
    RepliesLeave(b.desk, a.replies, id);
    LogLeaves(d, d.mem, d.saved, [MissedDone], Invoices, id);
    AdvanceLeaves(d.Log(MissedDone), ContactActive, a.save, Invoices, id);
    LeavesTwice(b.desk, d, d.Log(MissedDone), Invoices, id);
    LeavesTwice(b.desk, d.Log(MissedDone), Advance(d.Log(MissedDone), ContactActive, a.save).0, Invoices, id);
  }

  lemma CallLeaves(b: Bench, a: Answers, id: uint64)
    ensures Leaves(b.desk, Call(b.desk.mem.phase, b, a).0.desk, KindOf(b.desk.mem.phase), id)
  {
    var phase := b.desk.mem.phase;
    if phase == InvoiceMissed {
      MissedLeaves(b, a, id);
    } else {
      WalkLeaves(b.desk, phase, b.desk.mem.offset, a.pages, id);
      var d := Walk(b.desk, phase, b.desk.mem.offset, a.pages).0;
      forall next ensures Leaves(b.desk, Advance(d, next, a.save).0, KindOf(phase), id) {
        AdvanceLeaves(d, next, a.save, KindOf(phase), id);
        LeavesTwice(b.desk, d, Advance(d, next, a.save).0, KindOf(phase), id);
      }
    }
  }

  lemma SyncLeaves(st: State, a: Answers, kind: Kind, id: uint64)
    ensures var r := ChainSync(st, a).0;
            && GoesOn(st.log, r.log)
            && (Hides(st.log, r.log, kind, id) ==> SameAt(st.StoreOf(kind), r.StoreOf(kind), id))
  {
    var started, worked := st.Log(CallStarted(st.mem)), KindOf(st.mem.phase);
    var d, b := st.DeskOf(worked), started.BenchOf(worked);
    LogLeaves(d, d.mem, d.saved, [CallStarted(st.mem)], worked, id);
    CallLeaves(b, a, id);
    LeavesTwice(d, b.desk, Call(st.mem.phase, b, a).0.desk, worked, id);
  }

  // ---- waiting to be pruned

  /** A pruning since has deleted the object. */
  ghost predicate Gone(before: seq<Fact>, after: seq<Fact>, kind: Kind, id: uint64) {
    exists i :: |before| <= i < |after| && after[i].Pruned? && after[i].kind == kind && id in after[i].ids
  }

  /** What a resource has of the object since a position of the log: nothing any
      more, or the very mark and row it had then, while the version went on with
      the bumps. */
  ghost predicate WaitsIn(was: Store, before: seq<Fact>, now: Store, log: seq<Fact>, kind: Kind, id: uint64) {
    && before <= log
    && now.cache.version as int == was.cache.version as int + Bumps(log, kind, |before|)
    && (if Gone(before, log, kind, id) then id !in now.rows && id !in now.cache.marks
        else SameAt(was, now.(cache := now.cache.(version := was.cache.version)), id))
  }

  ghost predicate Waits(s0: State, s: State, kind: Kind, id: uint64) {
    WaitsIn(s0.StoreOf(kind), s0.log, s.StoreOf(kind), s.log, kind, id)
  }

  lemma {:induction false} BumpsPlain(log: seq<Fact>, more: seq<Fact>, kind: Kind, i: nat)
    requires GoesOn(log, more) && i <= |log|
    ensures Bumps(more, kind, i) == Bumps(log, kind, i)
    decreases |more|
  {
    if |more| == |log| {
      assert more == log;
    } else {
      var init := more[..|more| - 1];
      BumpsPlain(log, init, kind, i);
      assert more == init + [more[|more| - 1]];
      BumpsMore(init, more[|more| - 1], kind, i);
    }
  }

  lemma GoneGrows(before: seq<Fact>, log: seq<Fact>, more: seq<Fact>, kind: Kind, id: uint64)
    requires before <= log <= more
    ensures Gone(before, log, kind, id) ==> Gone(before, more, kind, id)
    ensures (forall i | |log| <= i < |more| :: !more[i].Pruned?) ==>
      (Gone(before, more, kind, id) ==> Gone(before, log, kind, id))
  {
    assert forall i | 0 <= i < |log| :: more[i] == log[i];
    if Gone(before, log, kind, id) {
      var i :| |before| <= i < |log| && log[i].Pruned? && log[i].kind == kind && id in log[i].ids;
      assert more[i] == log[i];
    }
  }

  lemma SyncWaits(s0: State, s: State, a: Answers, kind: Kind, id: uint64)
    requires Waits(s0, s, kind, id) && Hides(s.log, ChainSync(s, a).0.log, kind, id)
    ensures Waits(s0, ChainSync(s, a).0, kind, id)
    ensures Bumps(ChainSync(s, a).0.log, kind, |s0.log|) == Bumps(s.log, kind, |s0.log|)
  {
    var r := ChainSync(s, a).0;
    SyncLeaves(s, a, kind, id);
    BumpsPlain(s.log, r.log, kind, |s0.log|);
    GoneGrows(s0.log, s.log, r.log, kind, id);
  }

  lemma GoneOne(before: seq<Fact>, log: seq<Fact>, f: Fact, kind: Kind, id: uint64)
    requires before <= log
    ensures Gone(before, log + [f], kind, id) <==>
      Gone(before, log, kind, id) || (f.Pruned? && f.kind == kind && id in f.ids)
  {
    var more := log + [f];
    GoneGrows(before, log, more, kind, id);
    assert more[|log|] == f && forall i | 0 <= i < |log| :: more[i] == log[i];
  }

  /** The pruning of another resource changes nothing here. */
  lemma OtherPruneWaits(was: Store, before: seq<Fact>, now: Store, log: seq<Fact>, f: Fact, kind: Kind, id: uint64)
    requires WaitsIn(was, before, now, log, kind, id) && f.Pruned? && f.kind != kind
    ensures WaitsIn(was, before, now, log + [f], kind, id)
  {
    BumpsMore(log, f, kind, |before|);
    GoneOne(before, log, f, kind, id);
  }

  /** What a whole pruning deletes, one id at a time. */
  lemma PruneOneId(s: Store, drift: uint64, id: uint64)
    ensures var r := PrunedStore(s, drift, Done);
            && r.cache.version == s.cache.version
            && (IsPrunable(s.cache, drift, id) ==> id !in r.rows && id !in r.cache.marks)
            && (!IsPrunable(s.cache, drift, id) && (id in s.cache.marks ==> IsLive(s.cache, id)) ==> SameAt(s, r, id))
            && (id !in s.cache.marks && id !in s.rows ==> id !in r.cache.marks && id !in r.rows)
  {
  }

  lemma OwnPruneWaits(was: Store, before: seq<Fact>, now: Store, log: seq<Fact>, drift: uint64, kind: Kind, id: uint64)
    requires WaitsIn(was, before, now, log, kind, id) && IsLive(was.cache, id)
    ensures WaitsIn(was, before, PrunedStore(now, drift, Done), log + [Pruned(kind, Deleted(now.cache, drift, Done), drift)], kind, id)
  {
    var f := Pruned(kind, Deleted(now.cache, drift, Done), drift);
    BumpsMore(log, f, kind, |before|);
    GoneOne(before, log, f, kind, id);
    PruneOneId(now, drift, id);
  }

  /** A live object older than the drift is gone after its resource's pruning. */
  lemma OwnPruneTakes(was: Store, before: seq<Fact>, now: Store, log: seq<Fact>, drift: uint64, kind: Kind, id: uint64)
    requires WaitsIn(was, before, now, log, kind, id) && IsLive(was.cache, id) && WellFormed(was.cache)
    requires drift as int <= Bumps(log, kind, |before|)
    ensures Gone(before, log + [Pruned(kind, Deleted(now.cache, drift, Done), drift)], kind, id)
  {
    GoneOne(before, log, Pruned(kind, Deleted(now.cache, drift, Done), drift), kind, id);
    if !Gone(before, log, kind, id) {
      assert IsPrunable(now.cache, drift, id);
    }
  }

  lemma BumpWaits(s0: State, s: State, worked: Kind, r: Result, kind: Kind, id: uint64)
    requires Waits(s0, s, kind, id)
    requires s0.StoreOf(kind).cache.version as int + Bumps(BumpStep(s, worked, r).log, kind, |s0.log|) < UINT64_MAX as int - 1
    ensures Waits(s0, BumpStep(s, worked, r), kind, id)
  {
    if r.bump {
      var more := s.log + [Bumped(worked)];
      BumpsMore(s.log, Bumped(worked), kind, |s0.log|);
      GoneGrows(s0.log, s.log, more, kind, id);
      assert forall i | |s.log| <= i < |more| :: more[i] == Bumped(worked);
    }
  }

  lemma PruneWaits(s0: State, s: State, worked: Kind, r: Result, drift: cint, kind: Kind, id: uint64)
    requires Waits(s0, s, kind, id) && IsLive(s0.StoreOf(kind).cache, id)
    ensures Waits(s0, PruneStep(s, worked, r, Done, drift), kind, id)
  {
    if !r.failed && r.prune {
      if worked == kind {
        OwnPruneWaits(s0.StoreOf(kind), s0.log, s.StoreOf(kind), s.log, DriftOf(drift), kind, id);
      } else {
        var f := Pruned(worked, Deleted(s.StoreOf(worked).cache, DriftOf(drift), Done), DriftOf(drift));
        OtherPruneWaits(s0.StoreOf(kind), s0.log, s.StoreOf(kind), s.log, f, kind, id);
      }
    }
  }

  // ---- iterations

  /** An iteration goes on with the log: its call, its pruning if there is one, its bump if there is one. */
  lemma IterateLog(s: State, env: Env)
    ensures var (called, r) := ChainSync(s, env.answers);
            var kind := KindOf(s.mem.phase);
            var pruned := PruneStep(called, kind, r, env.prune, env.drift);
            && Iterate(s, env) == BumpStep(pruned, kind, r)
            && s.log <= called.log <= pruned.log <= Iterate(s, env).log
  {
    SyncLeaves(s, env.answers, Contacts, 0);
  }

  /** A log prunes a resource after a position. */
  ghost predicate PrunesSince(before: seq<Fact>, after: seq<Fact>, kind: Kind) {
    exists i :: |before| <= i < |after| && after[i].Pruned? && after[i].kind == kind
  }

  lemma IterateWaits(s0: State, s: State, env: Env, kind: Kind, id: uint64)
    requires Waits(s0, s, kind, id) && IsLive(s0.StoreOf(kind).cache, id) && env.prune == Done
    requires Hides(s.log, Iterate(s, env).log, kind, id)
    requires s0.StoreOf(kind).cache.version as int + Bumps(Iterate(s, env).log, kind, |s0.log|) < UINT64_MAX as int - 1
    ensures Waits(s0, Iterate(s, env), kind, id)
  {
    var (called, r) := ChainSync(s, env.answers);
    var worked := KindOf(s.mem.phase);
    var pruned := PruneStep(called, worked, r, Done, env.drift);
    IterateLog(s, env);
    assert forall i | |s.log| <= i < |called.log| :: Iterate(s, env).log[i] == called.log[i];
    SyncWaits(s0, s, env.answers, kind, id);
    PruneWaits(s0, called, worked, r, env.drift, kind, id);
    BumpWaits(s0, pruned, worked, r, kind, id);
  }

  /** What an iteration adds to the log of its call. */
  lemma IterateAdds(s: State, env: Env) returns (p: seq<Fact>, b: seq<Fact>)
    ensures var (called, r) := ChainSync(s, env.answers);
            var kind, drift := KindOf(s.mem.phase), DriftOf(env.drift);
            && PruneStep(called, kind, r, env.prune, env.drift).log == called.log + p
            && Iterate(s, env).log == called.log + p + b
            && p == (if !r.failed && r.prune then [Pruned(kind, Deleted(called.StoreOf(kind).cache, drift, env.prune), drift)] else [])
            && b == if r.bump then [Bumped(kind)] else []
  {
    var (called, r) := ChainSync(s, env.answers);
    var kind, drift := KindOf(s.mem.phase), DriftOf(env.drift);
    p := if !r.failed && r.prune then [Pruned(kind, Deleted(called.StoreOf(kind).cache, drift, env.prune), drift)] else [];
    b := if r.bump then [Bumped(kind)] else [];
  }

  lemma FindPruned(log: seq<Fact>, more: seq<Fact>, p: seq<Fact>, b: seq<Fact>, kind: Kind)
    requires GoesOn(log, more) && PrunesSince(log, more + p + b, kind)
    requires forall f | f in b :: f.Bumped?
    ensures exists f :: f in p && f.Pruned? && f.kind == kind
  {
    var last := more + p + b;
    assert forall i | |log| <= i < |more| :: last[i] == more[i];
    assert forall i | |more| + |p| <= i < |last| :: last[i] in b;
    var i :| |log| <= i < |last| && last[i].Pruned? && last[i].kind == kind;
    assert last[i] == p[i - |more|];
  }

  /** An iteration that logs a pruning of a resource pruned it right after its call. */
  lemma NewPruning(s: State, env: Env, kind: Kind)
    requires PrunesSince(s.log, Iterate(s, env).log, kind)
    ensures var (called, r) := ChainSync(s, env.answers);
            var drift := DriftOf(env.drift);
            && KindOf(s.mem.phase) == kind
            && PruneStep(called, kind, r, env.prune, env.drift).log ==
                 called.log + [Pruned(kind, Deleted(called.StoreOf(kind).cache, drift, env.prune), drift)]
  {
    var p, b := IterateAdds(s, env);
    SyncLeaves(s, env.answers, kind, 0);
    FindPruned(s.log, ChainSync(s, env.answers).0.log, p, b, kind);
  }

  /** An iteration that prunes after as many bumps as the drift has deleted the object. */
  lemma IterateTakes(s0: State, s: State, env: Env, kind: Kind, id: uint64)
    requires Waits(s0, s, kind, id) && IsLive(s0.StoreOf(kind).cache, id) && WellFormed(s0.StoreOf(kind).cache)
    requires env.prune == Done && DriftOf(env.drift) as int <= Bumps(s.log, kind, |s0.log|)
    requires Hides(s.log, Iterate(s, env).log, kind, id) && PrunesSince(s.log, Iterate(s, env).log, kind)
    ensures Gone(s0.log, Iterate(s, env).log, kind, id)
  {
    var (called, r) := ChainSync(s, env.answers);
    var last := Iterate(s, env);
    IterateLog(s, env);
    NewPruning(s, env, kind);
    assert forall i | |s.log| <= i < |called.log| :: last.log[i] == called.log[i];
    SyncWaits(s0, s, env.answers, kind, id);
    OwnPruneTakes(s0.StoreOf(kind), s0.log, called.StoreOf(kind), called.log, DriftOf(env.drift), kind, id);
    GoneGrows(s0.log, PruneStep(called, kind, r, env.prune, env.drift).log, last.log, kind, id);
  }

  // ---- stretches without a restart

  /** Iterations whose prunings, if any, went through with this drift. */
  predicate PruneWell(events: seq<Event>, drift: uint64) {
    forall i | 0 <= i < |events| :: events[i].Iteration? && events[i].env.prune == Done && DriftOf(events[i].env.drift) == drift
  }

  lemma TrailPart(states: seq<State>, events: seq<Event>, from: nat, to: nat)
    requires IsTrail(states, events) && from <= to <= |events|
    ensures IsTrail(states[from..to + 1], events[from..to])
  {
    PartOfTrail(states, events, After, from, to);
  }

  lemma PartOfTrail<S, E>(states: seq<S>, events: seq<E>, step: (S, E) -> S, from: nat, to: nat)
    requires |states| == |events| + 1 && forall k | 0 <= k < |events| :: states[k + 1] == step(states[k], events[k])
    requires from <= to <= |events|
    ensures var s, e := states[from..to + 1], events[from..to];
            |s| == |e| + 1 && forall k | 0 <= k < |e| :: s[k + 1] == step(s[k], e[k])
  {
  }

  lemma StepGrows(states: seq<State>, events: seq<Event>, k: nat)
    requires IsTrail(states, events) && k < |events| && events[k].Iteration?
    ensures states[k + 1] == Iterate(states[k], events[k].env) && states[k].log <= states[k + 1].log
  {
    IterateLog(states[k], events[k].env);
  }

  lemma {:induction false} GrowAlong(states: seq<State>, i: nat, j: nat)
    requires i <= j < |states| && forall k | 0 <= k < |states| - 1 :: states[k].log <= states[k + 1].log
    ensures states[i].log <= states[j].log
  {
    if i == j {
    } else {
      GrowAlong(states, i, j - 1);
    }
  }

  /** Logs grow along a stretch of iterations. */
  lemma LogsGrow(states: seq<State>, events: seq<Event>, i: nat, j: nat)
    requires IsTrail(states, events) && i <= j <= |events| && forall k | 0 <= k < |events| :: events[k].Iteration?
    ensures states[i].log <= states[j].log
  {
    forall k | 0 <= k < |states| - 1 ensures states[k].log <= states[k + 1].log {
      StepGrows(states, events, k);
    }
    GrowAlong(states, i, j);
  }

  lemma HidesPart(a: seq<Fact>, b: seq<Fact>, c: seq<Fact>, d: seq<Fact>, kind: Kind, id: uint64)
    requires a <= b <= c <= d && Hides(a, d, kind, id)
    ensures Hides(b, c, kind, id)
  {
    assert forall i | 0 <= i < |c| :: d[i] == c[i];
  }

  lemma {:induction false} BumpsGrow(log: seq<Fact>, more: seq<Fact>, kind: Kind, i: nat)
    requires log <= more && i <= |log|
    ensures Bumps(log, kind, i) <= Bumps(more, kind, i)
    decreases |more|
  {
    if |more| == |log| {
      assert more == log;
    } else {
      var init := more[..|more| - 1];
      BumpsGrow(log, init, kind, i);
      assert more == init + [more[|more| - 1]];
      BumpsMore(init, more[|more| - 1], kind, i);
    }
  }

  /** What a stretch is that nothing of the object shows in and no version reset falls into. */
  ghost predicate Unseen(states: seq<State>, events: seq<Event>, drift: uint64, kind: Kind, id: uint64) {
    && IsTrail(states, events) && PruneWell(events, drift)
    && var s0, s := states[0], states[|events|];
       && WellFormed(s0.StoreOf(kind).cache) && IsLive(s0.StoreOf(kind).cache, id)
       && Hides(s0.log, s.log, kind, id)
       && s0.StoreOf(kind).cache.version as int + Bumps(s.log, kind, |s0.log|) < UINT64_MAX as int - 1
  }

  lemma WaitsStart(s: State, kind: Kind, id: uint64)
    ensures Waits(s, s, kind, id)
  {
    assert Bumps(s.log, kind, |s.log|) == 0;
  }

  lemma StretchStep(states: seq<State>, events: seq<Event>, drift: uint64, kind: Kind, id: uint64, i: nat)
    requires Unseen(states, events, drift, kind, id) && i < |events|
    ensures var s, env := states[i], events[i].env;
            && events[i].Iteration? && env.prune == Done && DriftOf(env.drift) == drift
            && states[i + 1] == Iterate(s, env) && Hides(s.log, Iterate(s, env).log, kind, id)
            && states[0].StoreOf(kind).cache.version as int + Bumps(Iterate(s, env).log, kind, |states[0].log|)
                 < UINT64_MAX as int - 1
  {
    StepGrows(states, events, i);
    LogsGrow(states, events, 0, i);
    LogsGrow(states, events, i + 1, |events|);
    HidesPart(states[0].log, states[i].log, states[i + 1].log, states[|events|].log, kind, id);
    BumpsGrow(states[i + 1].log, states[|events|].log, kind, |states[0].log|);
  }

  lemma {:induction false} StretchWaits(states: seq<State>, events: seq<Event>, drift: uint64, kind: Kind, id: uint64, i: nat)
    requires Unseen(states, events, drift, kind, id) && i <= |events|
    ensures Waits(states[0], states[i], kind, id)
  {
    if i == 0 {
      WaitsStart(states[0], kind, id);
    } else {
      StretchWaits(states, events, drift, kind, id, i - 1);
      StretchStep(states, events, drift, kind, id, i - 1);
      IterateWaits(states[0], states[i - 1], events[i - 1].env, kind, id);
    }
  }

  /** In any stretch of iterations, with whatever errors, in which nothing shows a
      live object and the prunings go through: the first pruning of its resource
      after as many bumps as the drift has deleted it, if none did before. */
  lemma {:induction false} PruningTakesUnseen(states: seq<State>, events: seq<Event>, drift: uint64, kind: Kind, id: uint64, i: nat)
    requires Unseen(states, events, drift, kind, id) && i < |events|
    requires drift as int <= Bumps(states[i].log, kind, |states[0].log|)
    requires PrunesSince(states[i].log, states[i + 1].log, kind)
    ensures Gone(states[0].log, states[i + 1].log, kind, id)
    ensures Gone(states[0].log, states[|events|].log, kind, id)
    ensures var s := states[|events|].StoreOf(kind); id !in s.rows && id !in s.cache.marks
  {
    var s0, last := states[0], states[|events|];
    StretchWaits(states, events, drift, kind, id, i);
    StretchStep(states, events, drift, kind, id, i);
    LogsGrow(states, events, 0, i + 1);
    LogsGrow(states, events, i + 1, |events|);
    IterateTakes(s0, states[i], events[i].env, kind, id);
    GoneGrows(s0.log, states[i + 1].log, last.log, kind, id);
    StretchWaits(states, events, drift, kind, id, |events|);
  }

  // ---- undisturbed cycles

  lemma {:induction false} BumpsConcat(a: seq<Fact>, b: seq<Fact>, kind: Kind)
    ensures Bumps(a + b, kind, 0) == Bumps(a, kind, 0) + Bumps(b, kind, 0)
  {
    if b == [] {
      assert a + b == a;
    } else {
      var init, last := b[..|b| - 1], b[|b| - 1];
      BumpsConcat(a, init, kind);
      assert a + b == a + init + [last] && b == init + [last];
      BumpsMore(a + init, last, kind, 0);
      BumpsMore(init, last, kind, 0);
    }
  }

  lemma {:induction false} BumpsOfTrace(log: seq<Fact>, kind: Kind)
    ensures Bumps(Trace(log), kind, 0) == Bumps(log, kind, 0)
  {
    if log == [] {
    } else {
      var init, last := log[..|log| - 1], log[|log| - 1];
      BumpsOfTrace(init, kind);
      assert log == init + [last];
      BumpsMore(init, last, kind, 0);
      BumpsMore(Trace(init), last, kind, 0);
      assert Trace(log) == if IsTraced(last) then Trace(init) + [last] else Trace(init);
    }
  }

  lemma {:induction false} BumpsNone(log: seq<Fact>, kind: Kind)
    requires forall f | f in log :: !f.Bumped?
    ensures Bumps(log, kind, 0) == 0
  {
    if log == [] {
    } else {
      assert log[|log| - 1] in log;
      BumpsNone(log[..|log| - 1], kind);
    }
  }

  lemma BumpsOfPart(walk: seq<Fact>, pruned: Fact, worked: Kind, kind: Kind)
    requires (forall f | f in walk :: !f.Bumped?) && pruned.Pruned?
    ensures Bumps(walk + [pruned, Bumped(worked)], kind, 0) == if worked == kind then 1 else 0
  {
    var log := walk + [pruned];
    BumpsNone(log, kind);
    assert walk + [pruned, Bumped(worked)] == log + [Bumped(worked)];
    BumpsMore(log, Bumped(worked), kind, 0);
  }

  /** An undisturbed cycle bumps each resource once. */
  lemma CycleTraceBumps(remote: Remote, c: Fact, j: Fact, i: Fact, kind: Kind)
    requires c.Pruned? && j.Pruned? && i.Pruned?
    ensures Bumps(CycleTrace(remote, c, j, i), kind, 0) == 1
  {
    var a, b := PlainWalk(ContactActive, remote.active), PlainWalk(ContactArchived, remote.archived) + [c, Bumped(Contacts)];
    var p, d := PlainWalk(Project, remote.projects) + [j, Bumped(Projects)], PlainWalk(InvoiceList, remote.invoices);
    BumpsNone(a, kind);
    BumpsOfPart(PlainWalk(ContactArchived, remote.archived), c, Contacts, kind);
    BumpsOfPart(PlainWalk(Project, remote.projects), j, Projects, kind);
    BumpsNone(d, kind);
    BumpsOfPart([], i, Invoices, kind);
    assert [] + [i, Bumped(Invoices)] == [i, Bumped(Invoices)];
    BumpsConcat(a, b, kind);
    BumpsConcat(a + b, p, kind);
    BumpsConcat(a + b + p, d, kind);
    BumpsConcat(a + b + p + d, [i, Bumped(Invoices)], kind);
  }

  lemma {:induction false} BumpsSplit(log: seq<Fact>, more: seq<Fact>, kind: Kind)
    requires log <= more
    ensures Bumps(more, kind, 0) == Bumps(log, kind, 0) + Bumps(more, kind, |log|)
    decreases |more|
  {
    if |more| == |log| {
      assert more == log;
    } else {
      var init := more[..|more| - 1];
      BumpsSplit(log, init, kind);
      assert more == init + [more[|more| - 1]];
      BumpsMore(init, more[|more| - 1], kind, 0);
      BumpsMore(init, more[|more| - 1], kind, |log|);
    }
  }

  /** Five iterations without any error, from the start of a cycle. */
  predicate IsCycle(events: seq<Event>, remote: Remote) {
    && |events| == 5 && (forall p: Phase :: LIST_LIMIT * remote.Pages(p) <= INT_MAX)
    && forall i | 0 <= i < 5 :: CleanEvent(events[i], PHASES[i], remote)
  }

  /** An undisturbed cycle raises the number of bumps of each resource by exactly one. */
  lemma CycleBumpsEachOnce(states: seq<State>, events: seq<Event>, remote: Remote, kind: Kind)
    requires IsTrail(states, events) && states[0].mem == START && IsCycle(events, remote)
    ensures states[5].mem == START && Bumps(states[5].log, kind, 0) == Bumps(states[0].log, kind, 0) + 1
  {
    var c, j, i := CycleIsFourPlainWalks(states, events, remote);
    CycleTraceBumps(remote, c, j, i, kind);
    BumpsConcat(Trace(states[0].log), CycleTrace(remote, c, j, i), kind);
    BumpsOfTrace(states[0].log, kind);
    BumpsOfTrace(states[5].log, kind);
  }

  lemma {:induction false} PickConcat(a: seq<Fact>, b: seq<Fact>, keep: Fact -> bool)
    ensures Pick(a + b, keep) == Pick(a, keep) + Pick(b, keep)
  {
    if b == [] {
      assert a + b == a;
    } else {
      PickConcat(a, b[..|b| - 1], keep);
      assert a + b == a + b[..|b| - 1] + [b[|b| - 1]];
      PickOne(a + b[..|b| - 1], b[|b| - 1], keep);
    }
  }

  lemma {:induction false} PickedIsThere(log: seq<Fact>, keep: Fact -> bool)
    ensures forall f | f in Pick(log, keep) :: f in log
  {
    if log == [] {
    } else {
      PickedIsThere(log[..|log| - 1], keep);
    }
  }

  lemma SameTail(a: seq<Fact>, b: seq<Fact>, c: seq<Fact>)
    requires a + b == a + c
    ensures b == c
  {
    assert (a + b)[|a|..] == b && (a + c)[|a|..] == c;
  }

  /** An undisturbed cycle prunes each resource. */
  lemma CyclePrunes(states: seq<State>, events: seq<Event>, remote: Remote, kind: Kind)
    requires IsTrail(states, events) && states[0].mem == START && IsCycle(events, remote)
    requires states[0].log <= states[5].log
    ensures PrunesSince(states[0].log, states[5].log, kind)
  {
    var c, j, i := CycleIsFourPlainWalks(states, events, remote);
    var f := match kind case Contacts => c case Projects => j case Invoices => i;
    var before, news := states[0].log, states[5].log[|states[0].log|..];
    assert states[5].log == before + news;
    PickConcat(before, news, IsTraced);
    SameTail(Trace(before), Trace(news), CycleTrace(remote, c, j, i));
    assert f in CycleTrace(remote, c, j, i);
    PickedIsThere(news, IsTraced);
    var k :| 0 <= k < |news| && news[k] == f;
    assert states[5].log[|before| + k] == f;
  }

  /** Undisturbed cycles, one after the other. */
  ghost predicate AreCycles(states: seq<State>, events: seq<Event>, remotes: seq<Remote>) {
    && IsTrail(states, events) && states[0].mem == START && |events| == 5 * |remotes|
    && forall c | 0 <= c < |remotes| :: IsCycle(events[5 * c..5 * c + 5], remotes[c])
  }

  lemma {:induction false} CyclesBump(states: seq<State>, events: seq<Event>, remotes: seq<Remote>, kind: Kind, c: nat)
    requires AreCycles(states, events, remotes) && c <= |remotes|
    ensures states[5 * c].mem == START && Bumps(states[5 * c].log, kind, 0) == Bumps(states[0].log, kind, 0) + c
  {
    if c == 0 {
    } else {
      CyclesBump(states, events, remotes, kind, c - 1);
      var a := 5 * (c - 1);
      TrailPart(states, events, a, a + 5);
      assert IsCycle(events[5 * (c - 1)..5 * (c - 1) + 5], remotes[c - 1]);
      CycleBumpsEachOnce(states[a..a + 6], events[a..a + 5], remotes[c - 1], kind);
    }
  }

  lemma PrunesEither(a: seq<Fact>, b: seq<Fact>, c: seq<Fact>, kind: Kind)
    requires a <= b <= c && PrunesSince(a, c, kind)
    ensures PrunesSince(a, b, kind) || PrunesSince(b, c, kind)
  {
    var x :| |a| <= x < |c| && c[x].Pruned? && c[x].kind == kind;
    assert x < |b| ==> b[x] == c[x];
  }

  /** Some iteration of a stretch that prunes a resource prunes it. */
  lemma {:induction false} WhichPrunes(states: seq<State>, events: seq<Event>, kind: Kind, from: nat, to: nat) returns (i: nat)
    requires IsTrail(states, events) && from <= to <= |events| && forall k | 0 <= k < |events| :: events[k].Iteration?
    requires PrunesSince(states[from].log, states[to].log, kind)
    ensures from <= i < to && PrunesSince(states[i].log, states[i + 1].log, kind)
  {
    LogsGrow(states, events, from, to - 1);
    LogsGrow(states, events, to - 1, to);
    PrunesEither(states[from].log, states[to - 1].log, states[to].log, kind);
    if PrunesSince(states[to - 1].log, states[to].log, kind) {
      i := to - 1;
    } else {
      i := WhichPrunes(states, events, kind, from, to - 1);
    }
  }

  /** A live object that nothing shows during one more undisturbed cycle than the
      drift is deleted by them: it is among the ids of a pruning of its resource,
      and neither the table nor the cache has it any more. */
  lemma {:induction false} VanishedIsDeleted(states: seq<State>, events: seq<Event>, remotes: seq<Remote>, drift: uint64, kind: Kind, id: uint64)
    requires AreCycles(states, events, remotes) && |remotes| == drift as int + 1
    requires Unseen(states, events, drift, kind, id)
    ensures Gone(states[0].log, states[|events|].log, kind, id)
    ensures var s := states[|events|].StoreOf(kind); id !in s.rows && id !in s.cache.marks
  {
    var d := drift as int;
    var a := 5 * d;
    CyclesBump(states, events, remotes, kind, d);
    LogsGrow(states, events, 0, a);
    BumpsSplit(states[0].log, states[a].log, kind);
    TrailPart(states, events, a, a + 5);
    assert IsCycle(events[5 * d..5 * d + 5], remotes[d]);
    LogsGrow(states, events, a, a + 5);
    CyclePrunes(states[a..a + 6], events[a..a + 5], remotes[d], kind);
    var i := WhichPrunes(states, events, kind, a, a + 5);
    LogsGrow(states, events, a, i);
    BumpsGrow(states[a].log, states[i].log, kind, |states[0].log|);
    PruningTakesUnseen(states, events, drift, kind, id, i);
  }
}
