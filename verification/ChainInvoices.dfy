/** An invoice row is deleted by pruning only after its GET by id, in the same
    chain step, was answered 404; or brought a body that no memory was left to
    decode. A GET by id is taken to answer about that id. */
module ChainInvoices {
  import opened MachineIntegers
  import opened Prune
  import opened MissedIds
  import opened ChainCursor
  import opened ChainSpec
  import opened ChainHistory
  import opened ChainFlags

  /** This call asked for the id, and the answer did not show the invoice. */
  ghost predicate AskedInCall(log: seq<Fact>, id: uint64) {
    exists i :: 0 <= i < |log| && log[i].Asked? && log[i].reply.id == id &&
                LeavesUnseen(log[i].reply) && SameCallSince(log, i)
  }

  ghost predicate InvoicesAsked(before: seq<Fact>, f: Fact) {
    f.Pruned? && f.kind == Invoices ==> forall id | id in f.ids :: AskedInCall(before, id)
  }

  /** Facts that are no pruning need nothing. */
  lemma OtherFacts(log: seq<Fact>, more: seq<Fact>)
    requires Justified(log, InvoicesAsked) && log <= more
    requires forall i | |log| <= i < |more| :: !more[i].Pruned?
    ensures Justified(more, InvoicesAsked)
  {
    JustifiedMore(log, more, InvoicesAsked);
  }

  lemma MissedFacts(st: State, a: Answers)
    requires st.mem.phase == InvoiceMissed
    ensures var (r, asked) := (Called(st, a).0, st.log + AskedFacts(a.replies));
            && r.invoices == Fetched(st.invoices, a.replies)
            && r.log == if a.fetched then asked + [MissedDone] + [Entered(ContactActive)] + Writing(START, a.save) else asked
  {
  }

  /** What a call adds to the log of its walk. */
  lemma WalkedCall(st: State, a: Answers)
    requires st.mem.phase != InvoiceMissed
    ensures var walked, log := Walk(st.DeskOf(KindOf(st.mem.phase)), st.mem.phase, st.mem.offset, a.pages).0.log, Called(st, a).0.log;
            walked <= log && forall i | |walked| <= i < |log| :: log[i].Entered? || log[i].Wrote?
  {
  }

  lemma WalkPrunesNothing(st: State, a: Answers)
    requires ChainFlags.Invariant(st) && Started(st) && Justified(st.log, InvoicesAsked) && st.mem.phase != InvoiceMissed
    ensures Justified(Called(st, a).0.log, InvoicesAsked)
  {
    var d := st.DeskOf(KindOf(st.mem.phase));
    var walked := Walk(d, st.mem.phase, d.mem.offset, a.pages).0;
    WalkLog(d, st.mem.phase, a.pages);
    OtherFacts(st.log, walked.log);
    WalkedCall(st, a);
    OtherFacts(walked.log, Called(st, a).0.log);
  }

  /** No call prunes by itself, and of the invoice phases only the by-id one asks to. */
  lemma CallPrunesNothing(st: State, a: Answers)
    requires ChainFlags.Invariant(st) && Started(st) && Justified(st.log, InvoicesAsked)
    ensures Justified(Called(st, a).0.log, InvoicesAsked)
  {
    if st.mem.phase == InvoiceMissed {
      MissedFacts(st, a);
      OtherFacts(st.log, Called(st, a).0.log);
    } else {
      WalkPrunesNothing(st, a);
    }
  }

  lemma ReplyInCall(log: seq<Fact>, replies: seq<Reply>, i: nat, save: Save)
    requires i < |replies| && LeavesUnseen(replies[i])
    ensures AskedInCall(log + AskedFacts(replies) + [MissedDone] + [Entered(ContactActive)] + Writing(START, save), replies[i].id)
  {
    var more := log + AskedFacts(replies) + [MissedDone] + [Entered(ContactActive)] + Writing(START, save);
    assert more[|log| + i] == Asked(replies[i]);
  }

  /** What a successful by-id call leaves prunable was asked for in that call. */
  lemma MissedAsks(st: State, a: Answers, end: PruneEnd, drift: uint64)
    requires st.mem.phase == InvoiceMissed && a.fetched && drift != 0
    requires Possible(st.invoices.cache, a.replies, true)
    ensures var r := Called(st, a).0;
            forall id | id in Deleted(r.invoices.cache, drift, end) :: AskedInCall(r.log, id)
  {
    MissedFacts(st, a);
    var r := Called(st, a).0;
    forall id | id in Deleted(r.invoices.cache, drift, end) ensures AskedInCall(r.log, id) {
      PrunableIffUnseen(st.invoices, a.replies, drift, id);
      var i :| 0 <= i < |a.replies| && a.replies[i].id == id && LeavesUnseen(a.replies[i]);
      ReplyInCall(st.log, a.replies, i, a.save);
    }
  }

  lemma IterateAsks(st: State, env: Env)
    requires ChainFlags.Invariant(st) && Justified(st.log, InvoicesAsked) && Enabled(st, Iteration(env))
    ensures Justified(Iterate(st, env).log, InvoicesAsked)
  {
    var kind, started := KindOf(st.mem.phase), st.Log(CallStarted(st.mem));
    LogKeeps(st, [CallStarted(st.mem)]);
    OtherFacts(st.log, started.log);
    CallPrunesNothing(started, env.answers);
    var (called, r) := ChainSync(st, env.answers);
    var pruned := PruneStep(called, kind, r, env.prune, env.drift);
    if !r.failed && r.prune {
      if kind == Invoices {
        MissedAsks(started, env.answers, env.prune, DriftOf(env.drift));
      }
      JustifiedOne(called.log, pruned.log[|called.log|], InvoicesAsked);
    }
    if r.bump {
      OtherFacts(pruned.log, pruned.log + [Bumped(kind)]);
    }
  }

  /** In every run, for every drift and whatever happened before: an invoice is
      deleted by pruning only if the by-id call of the same chain step asked for
      it and got 404, or a body it had no memory to decode. */
  lemma {:induction false} InvoicesAreAskedFor(st: State, events: seq<Event>)
    requires IsRun(st, events)
    ensures Justified(Final(st, events).log, InvoicesAsked)
  {
    if events == [] {
    } else {
      var init := events[..|events| - 1];
      RunBefore(st, events);
      InvoicesAreAskedFor(st, init);
      PruningIsEarned(st, init);
      var s := Final(st, init);
      match events[|events| - 1]
      case Iteration(env) => IterateAsks(s, env);
      case Restart(c, p, i) => OtherFacts(s.log, s.log + [Booted(s.saved)]);
    }
  }

  /** This call got 404 for the id. */
  ghost predicate GoneInCall(log: seq<Fact>, id: uint64) {
    exists i :: 0 <= i < |log| && log[i] == Asked(Reply(id, NotFound)) && SameCallSince(log, i)
  }

  /** Every body this call got by id was decoded. */
  predicate DecodedInCall(log: seq<Fact>) {
    forall i | 0 <= i < |log| && log[i].Asked? && SameCallSince(log, i) :: !IsUndecoded(log[i].reply)
  }

  ghost predicate InvoicesGone(before: seq<Fact>, f: Fact) {
    f.Pruned? && f.kind == Invoices && DecodedInCall(before) ==> forall id | id in f.ids :: GoneInCall(before, id)
  }

  lemma AskedIsGone(log: seq<Fact>, id: uint64)
    requires AskedInCall(log, id) && DecodedInCall(log)
    ensures GoneInCall(log, id)
  {
    var i :| 0 <= i < |log| && log[i].Asked? && log[i].reply.id == id && LeavesUnseen(log[i].reply) && SameCallSince(log, i);
    assert log[i] == Asked(Reply(id, NotFound));
  }

  /** In every run, as long as no decoding fails for want of memory: an invoice is
      deleted by pruning only if its GET in the same chain step was answered 404. */
  lemma {:induction false} DeletedOnlyAfter404(st: State, events: seq<Event>)
    requires IsRun(st, events)
    ensures Justified(Final(st, events).log, InvoicesGone)
  {
    var log := Final(st, events).log;
    InvoicesAreAskedFor(st, events);
    forall p | 0 <= p < |log| ensures InvoicesGone(log[..p], log[p]) {
      var before, f := log[..p], log[p];
      assert InvoicesAsked(before, f);
      if f.Pruned? && f.kind == Invoices && DecodedInCall(before) {
        forall id | id in f.ids ensures GoneInCall(before, id) {
          AskedIsGone(before, id);
        }
      }
    }
  }
}
