/** What one call of ensure owes its caller: success means that memory and rows
    agree or that three writes failed, failure has a cause, and nothing is posted
    without need (src/bx_oauth.c:957-1030). */
module OAuthEnsure {
  import opened OAuth

  predicate IsFailedCommit(e: Step) {
    e.CommitFailed? || e.CommitUnsure?
  }

  /** How many writes failed, as far as the process was told. */
  function FailedCommits(steps: seq<Step>): nat {
    if steps == [] then 0 else (if IsFailedCommit(steps[0]) then 1 else 0) + FailedCommits(steps[1..])
  }

  // ---- success

  /** A call on its way that was told of so many failed writes. */
  predicate Saving(p: Proc, w: World, failed: nat) {
    match p.pc
    case Idle => false
    case Waiting(_, _) => failed == 0
    case Locked(_, _) => failed == 0
    case Refreshing => failed == 0
    case Writing(_, attempts) => failed == attempts < 3
    case Unsaved => p.dirty && failed == 3
    case Leaving(ok) => ok ==> Agrees(p, w, failed)
    case Done(ok) => ok ==> Agrees(p, w, failed)
  }

  /** Unsaved tokens after three failed writes; else what memory has is in the rows. */
  predicate Agrees(p: Proc, w: World, failed: nat) {
    if failed == 3 then p.dirty else !p.dirty && w.row == Triple(p.access, p.refresh, p.expires)
  }

  lemma {:induction false} SavingLeads(p: Proc, w: World, me: int, steps: seq<Step>, q: Proc, v: World, failed: nat)
    requires Leads(p, w, me, steps, q, v) && Saving(p, w, failed)
    requires forall e | e in steps :: InSection(e)
    ensures Saving(q, v, failed + FailedCommits(steps))
    decreases |steps|
  {
    if steps == [] {
    } else {
      var e := steps[0];
      assert e in steps;
      var (p', w') := Next(p, w, me, e);
      SavingLeads(p', w', me, steps[1..], q, v, failed + (if IsFailedCommit(e) then 1 else 0));
    }
  }

  /** A call that took the lock and succeeds leaves in the rows what it has in
      memory, and nothing unsaved; except after exactly three failed writes, and
      then its tokens are unsaved. */
  lemma SuccessAgrees(p: Proc, w: World, me: int, force: bool, rejected: string, steps: seq<Step>, q: Proc, v: World)
    requires p.pc == Waiting(force, rejected) && Leads(p, w, me, steps, q, v) && q.pc == Done(true)
    requires forall e | e in steps :: InSection(e)
    ensures if FailedCommits(steps) == 3 then q.dirty
            else !q.dirty && v.row == Triple(q.access, q.refresh, q.expires)
  {
    SavingLeads(p, w, me, steps, q, v, 0);
  }

  // ---- refusal

  predicate LetGo(p: Proc, refused: bool) {
    refused ==> (p.pc == Leaving(false) || p.pc == Done(false)) && !p.dirty
  }

  /** A refused process gives up its tokens: the call fails, and the next one reads the rows. */
  lemma {:induction false} RefusalLetsGo(p: Proc, w: World, me: int, steps: seq<Step>, q: Proc, v: World, refused: bool)
    requires Leads(p, w, me, steps, q, v) && LetGo(p, refused)
    requires forall e | e in steps :: InSection(e)
    ensures LetGo(q, refused || exists e :: e in steps && e.Refused?)
    decreases |steps|
  {
    if steps == [] {
    } else {
      var e := steps[0];
      assert e in steps && steps == [e] + steps[1..];
      var (p', w') := Next(p, w, me, e);
      RefusalLetsGo(p', w', me, steps[1..], q, v, refused || e.Refused?);
      assert (exists x :: x in steps && x.Refused?) <==> e.Refused? || exists x :: x in steps[1..] && x.Refused?;
    }
  }

  // ---- failure

  predicate IsCause(e: Step) {
    e.LockDenied? || e.ReadFailed? || e.PostFailed? || e.Refused? || e.ResponseLost?
  }

  /** Why a call may fail by now: something went wrong, there is no refresh token,
      or the token it was granted and could not save is of no use. */
  predicate MayFail(p: Proc, wrong: bool, now: int) {
    wrong || !Present(p.refresh) || (p.dirty && !Usable(p.access, p.expires, now))
  }

  predicate Failing(p: Proc, wrong: bool, now: int) {
    match p.pc
    case Idle => false
    case Unsaved => p.dirty
    case Leaving(ok) => !ok ==> MayFail(p, wrong, now)
    case Done(ok) => !ok ==> MayFail(p, wrong, now)
    case _ => true
  }

  lemma {:induction false} FailingLeads(p: Proc, w: World, me: int, steps: seq<Step>, q: Proc, v: World, wrong: bool, now: int)
    requires Leads(p, w, me, steps, q, v) && Failing(p, wrong, now)
    requires forall e | e in steps :: InSection(e)
    ensures Failing(q, wrong || exists e :: e in steps && IsCause(e), LastClock(steps, now))
    decreases |steps|
  {
    if steps == [] {
    } else {
      var e := steps[0];
      assert e in steps && steps == [e] + steps[1..];
      var (p', w') := Next(p, w, me, e);
      FailingLeads(p', w', me, steps[1..], q, v, wrong || IsCause(e), ClockAfter(e, now));
      assert (exists x :: x in steps && IsCause(x)) <==> IsCause(e) || exists x :: x in steps[1..] && IsCause(x);
    }
  }

  /** A call fails only if the lock, the rows or the server failed it, if there is
      no refresh token, or if it ends with an unsaved token that is of no use. */
  lemma FailureHasCause(p: Proc, w: World, me: int, steps: seq<Step>, q: Proc, v: World, now: int)
    requires p.pc.Waiting? && Leads(p, w, me, steps, q, v) && q.pc == Done(false)
    requires forall e | e in steps :: InSection(e)
    ensures (exists e :: e in steps && IsCause(e)) || !Present(q.refresh) ||
            (q.dirty && !Usable(q.access, q.expires, LastClock(steps, now)))
  {
    FailingLeads(p, w, me, steps, q, v, false, now);
  }

  // ---- what is posted, and for how long it serves

  /** Under the lock a process goes on to post exactly when it has a refresh token
      and the access token it finds is not usable, or is the rejected one, or
      memory alone has it and a forced call must replace it. */
  lemma PostsOnlyIfNeeded(p: Proc, w: World, me: int, e: Step)
    requires Enabled(p, w, e) && (e.Enter? || e.Read?)
    ensures var access, refresh, expires :=
              if p.dirty then p.access else w.row.access,
              if p.dirty then p.refresh else w.row.refresh,
              if p.dirty then p.expires else w.row.expires;
            Next(p, w, me, e).0.pc == Refreshing <==>
              && refresh != ""
              && (access == "" || expires <= e.now + 60 ||
                  (p.pc.force && (p.dirty || (p.pc.rejected != "" && p.pc.rejected == access))))
  {
  }

  predicate IsPost(e: Step) {
    e.PostFailed? || e.Refused? || e.ResponseLost? || e.Granted?
  }

  function Posts(steps: seq<Step>): nat {
    if steps == [] then 0 else (if IsPost(steps[0]) then 1 else 0) + Posts(steps[1..])
  }

  /** The process looked at the tokens it has, its own if they are unsaved and else
      those of the rows, and had to renew them. */
  ghost predicate FoundNeed(p: Proc, row: Triple, force: bool, rejected: string, steps: seq<Step>) {
    exists e :: e in steps && (e.Enter? || e.Read?) && NeedsPost(p, row, force, rejected, e.now)
  }

  predicate NeedsPost(p: Proc, row: Triple, force: bool, rejected: string, now: int) {
    var found := if p.dirty then Triple(p.access, p.refresh, p.expires) else row;
    && found.refresh != ""
    && (found.access == "" || found.expires <= now + 60 ||
        (force && (p.dirty || (rejected != "" && rejected == found.access))))
  }

  predicate HasLooked(pc: Pc) {
    pc.Writing? || pc.Unsaved? || pc.Leaving? || pc.Done?
  }

  lemma {:induction false} LookedOnce(p: Proc, w: World, me: int, steps: seq<Step>, q: Proc, v: World)
    requires Leads(p, w, me, steps, q, v) && HasLooked(p.pc)
    requires forall e | e in steps :: InSection(e)
    ensures Posts(steps) == 0 && forall e | e in steps :: !e.Enter? && !e.Read?
    decreases |steps|
  {
    if steps == [] {
    } else {
      assert steps[0] in steps && steps == [steps[0]] + steps[1..];
      var (p', w') := Next(p, w, me, steps[0]);
      LookedOnce(p', w', me, steps[1..], q, v);
    }
  }

  lemma PostsWhenRefreshing(p: Proc, w: World, me: int, steps: seq<Step>, q: Proc, v: World)
    requires Leads(p, w, me, steps, q, v) && p.pc == Refreshing && q.pc.Done?
    requires forall e | e in steps :: InSection(e)
    ensures Posts(steps) == 1 && forall e | e in steps :: !e.Enter? && !e.Read?
  {
    assert steps != [] && steps[0] in steps && steps == [steps[0]] + steps[1..];
    var (p', w') := Next(p, w, me, steps[0]);
    LookedOnce(p', w', me, steps[1..], q, v);
  }

  lemma LocksThenLooks(p: Proc, w: World, me: int, force: bool, rejected: string, steps: seq<Step>, q: Proc, v: World)
    requires Leads(p, w, me, steps, q, v) && p.pc == Locked(force, rejected) && q.pc.Done?
    requires forall e | e in steps :: InSection(e)
    ensures Posts(steps) == if FoundNeed(p, w.row, force, rejected, steps) then 1 else 0
  {
    var e, rest := steps[0], steps[1..];
    assert e in steps && steps == [e] + rest;
    var (p', w') := Next(p, w, me, e);
    if e.Enter? || e.Read? {
      PostsOnlyIfNeeded(p, w, me, e);
      assert NeedsPost(p, w.row, force, rejected, e.now) <==> p'.pc == Refreshing;
    }
    if p'.pc == Refreshing {
      PostsWhenRefreshing(p', w', me, rest, q, v);
    } else {
      LookedOnce(p', w', me, rest, q, v);
    }
  }

  /** A call that goes for the lock posts once if it looked and found need, and
      otherwise never. */
  lemma PostsOnceIfNeeded(p: Proc, w: World, me: int, force: bool, rejected: string, steps: seq<Step>, q: Proc, v: World)
    requires Leads(p, w, me, steps, q, v) && p.pc == Waiting(force, rejected) && q.pc.Done?
    requires forall e | e in steps :: InSection(e)
    ensures Posts(steps) == if FoundNeed(p, w.row, force, rejected, steps) then 1 else 0
  {
    var e, rest := steps[0], steps[1..];
    assert e in steps && steps == [e] + rest;
    var (p', w') := Next(p, w, me, e);
    if e.LockTaken? {
      LocksThenLooks(p', w', me, force, rejected, rest, q, v);
      assert FoundNeed(p', w'.row, force, rejected, rest) <==> FoundNeed(p, w.row, force, rejected, steps);
    } else {
      LookedOnce(p', w', me, rest, q, v);
    }
  }

  /** All of this of one call. */
  lemma CallOwes(before: Proc, w: World, me: int, force: bool, steps: seq<Step>, q: Proc, v: World, ok: bool, now: int)
    requires Leads(before.(pc := Waiting(force, before.access)), w, me, steps, q, v) && q.pc == Done(ok)
    requires forall e | e in steps :: InSection(e)
    ensures steps != []
    ensures ok ==> if FailedCommits(steps) == 3 then q.dirty
                   else !q.dirty && v.row == Triple(q.access, q.refresh, q.expires)
    ensures !ok ==> (exists e :: e in steps && IsCause(e)) || !Present(q.refresh) ||
                    (q.dirty && !Usable(q.access, q.expires, LastClock(steps, now)))
    ensures (exists e :: e in steps && e.Refused?) ==> !ok && !q.dirty
    ensures Posts(steps) == if FoundNeed(before, w.row, force, before.access, steps) then 1 else 0
  {
    var p := before.(pc := Waiting(force, before.access));
    if ok {
      SuccessAgrees(p, w, me, force, before.access, steps, q, v);
    } else {
      FailureHasCause(p, w, me, steps, q, v, now);
    }
    RefusalLetsGo(p, w, me, steps, q, v, false);
    PostsOnceIfNeeded(p, w, me, force, before.access, steps, q, v);
    assert FoundNeed(p, w.row, force, before.access, steps) ==> FoundNeed(before, w.row, force, before.access, steps);
  }

  /** A granted token serves as long as the server said, or 300 seconds if it did
      not, less a margin of 60. */
  lemma GrantServesUntil(p: Proc, w: World, me: int, access: string, refresh: string, lifetime: int, now: int, t: int)
    requires Enabled(p, w, Granted(access, refresh, lifetime, now))
    ensures var q := Next(p, w, me, Granted(access, refresh, lifetime, now)).0;
            && q.access == access && q.refresh == (if refresh == "" then p.refresh else refresh)
            && (Usable(q.access, q.expires, t) <==> t + 60 < now + if lifetime <= 0 then 300 else lifetime)
  {
  }

  /** The default outlives the margin. */
  lemma DefaultIsLongEnough(access: string, refresh: string, lifetime: int, now: int)
    requires lifetime <= 0
    ensures LongEnough(Granted(access, refresh, lifetime, now))
  {
  }
}
