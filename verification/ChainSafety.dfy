/** What the two kinds of evidence give together: which listed ids survive a
    pruning, and exactly when one does not. */
module ChainSafety {
  import opened MachineIntegers
  import opened CacheSnapshot
  import opened ChainCursor
  import opened ChainSpec
  import opened ChainHistory
  import opened ChainFlags
  import opened ChainDrift

  lemma {:induction false} BumpsShrink(log: seq<Fact>, kind: Kind, i: nat, j: nat)
    requires i <= j
    ensures Bumps(log, kind, j) <= Bumps(log, kind, i)
  {
    if i >= |log| {
    } else {
      BumpsShrink(log[..|log| - 1], kind, i, j);
    }
  }

  lemma {:induction false} SameBumps(log: seq<Fact>, kind: Kind, i: nat, j: nat)
    requires i <= j <= |log|
    requires forall k | i <= k < j :: log[k] != Bumped(kind)
    ensures Bumps(log, kind, i) == Bumps(log, kind, j)
  {
    if i == j {
    } else {
      if j == |log| {
        SameBumps(log[..|log| - 1], kind, i, |log| - 1);
      } else {
        SameBumps(log[..|log| - 1], kind, i, j);
      }
    }
  }

  /** Every id listed since s is spared. */
  predicate Spared(before: seq<Fact>, s: nat, kind: Kind, ids: set<uint64>) {
    forall i | s < i < |before| && before[i].Listed? && before[i].kind == kind :: before[i].id !in ids
  }

  /** A contact pruning follows a whole pass; and it spares all contacts listed
      since the start of any whole active walk that fewer than drift bumps followed. */
  ghost predicate ContactsSafe(before: seq<Fact>, f: Fact) {
    f.Pruned? && f.kind == Contacts ==>
      && (exists s: nat, e: nat, g: nat :: ContactPass(before, s, e, g))
      && forall s: nat, e: nat | ActivePass(before, s, e) && Bumps(before, Contacts, e) < f.drift as int ::
           Spared(before, s, Contacts, f.ids)
  }

  /** A project pruning spares every project listed by the call that raised it. */
  ghost predicate ProjectsSafe(before: seq<Fact>, f: Fact) {
    f.Pruned? && f.kind == Projects ==>
      exists s: nat, e: nat :: WholeCall(before, s, e, Project) && SameCallSince(before, s) &&
                               Spared(before, s, Projects, f.ids)
  }

  lemma ContactsSpared(before: seq<Fact>, f: Fact, s: nat, e: nat)
    requires Drifted(before, f) && f.Pruned? && f.kind == Contacts
    requires ActivePass(before, s, e) && Bumps(before, Contacts, e) < f.drift as int
    ensures Spared(before, s, Contacts, f.ids)
  {
    forall i | s < i < |before| && before[i].Listed? && before[i].kind == Contacts ensures before[i].id !in f.ids {
      if i <= e {
        assert forall k | i <= k < e :: before[..e][k] == before[k];
        SameBumps(before, Contacts, i, e);
      } else {
        BumpsShrink(before, Contacts, e, i);
      }
      assert IsListing(before, i, Contacts);
    }
  }

  lemma ContactPruneSafe(before: seq<Fact>, f: Fact)
    requires Drifted(before, f) && Earned(before, f)
    ensures ContactsSafe(before, f)
  {
    if f.Pruned? && f.kind == Contacts {
      forall s: nat, e: nat | ActivePass(before, s, e) && Bumps(before, Contacts, e) < f.drift as int
        ensures Spared(before, s, Contacts, f.ids)
      {
        ContactsSpared(before, f, s, e);
      }
    }
  }

  lemma ProjectPruneSafe(before: seq<Fact>, f: Fact)
    requires Drifted(before, f) && Earned(before, f)
    ensures ProjectsSafe(before, f)
  {
    if f.Pruned? && f.kind == Projects {
      var s: nat, e: nat :| WholeCall(before, s, e, Project) && SameCallSince(before, s);
      forall i | s < i < |before| && before[i].Listed? && before[i].kind == Projects ensures before[i].id !in f.ids {
        SameBumps(before, Projects, i, |before|);
        assert IsListing(before, i, Projects);
      }
      assert Spared(before, s, Projects, f.ids);
    }
  }

  /** In every run: contacts listed in a whole pass survive it as long as fewer
      than drift bumps followed the active walk, and projects always survive the
      pruning of the call that listed them. */
  lemma {:induction false} ListedSurvive(st: State, events: seq<Event>)
    requires IsRun(st, events)
    ensures Justified(Final(st, events).log, ContactsSafe)
    ensures Justified(Final(st, events).log, ProjectsSafe)
  {
    var log := Final(st, events).log;
    PruningIsEarned(st, events);
    ListedIdsOutliveDrift(st, events);
    forall p | 0 <= p < |log| ensures ContactsSafe(log[..p], log[p]) && ProjectsSafe(log[..p], log[p]) {
      ContactPruneSafe(log[..p], log[p]);
      ProjectPruneSafe(log[..p], log[p]);
    }
  }

  /** Exactly when the drift reaches a contact or project: a live one, last
      listed at i by this process, is prunable iff at least drift bumps followed. */
  lemma {:induction false} PrunableExactlyByDrift(st: State, events: seq<Event>, kind: Kind, i: nat, drift: uint64)
    requires IsRun(st, events) && kind != Invoices && drift != 0
    requires var s := Final(st, events);
             && Bumps(s.log, kind, 0) < UINT64_MAX as int - 2
             && LastListing(s.log, i, kind) && IsLive(s.StoreOf(kind).cache, s.log[i].id)
    ensures var s := Final(st, events);
            s.log[i].id in Prunable(s.StoreOf(kind).cache, drift) <==> drift as int <= Bumps(s.log, kind, i)
  {
    RunFine(st, events);
    var s := Final(st, events);
    assert Fine(s.StoreOf(kind).cache, kind, s.log);
    assert Age(s.StoreOf(kind).cache, s.log[i].id) == Bumps(s.log, kind, i);
  }
}
