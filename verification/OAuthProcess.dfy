/** bx_oauth_ensure as the code runs it: a process, the database connection it
    locks and the authorization server. */
module OAuthProcess {
  import opened MachineIntegers
  import opened OAuth
  import opened OAuthEnsure

  /** time(NULL) */
  method Clock() returns (now: int) {
    now := *;
  }

  datatype Answer = Nothing | InvalidGrant | Tokens(access: string, refresh: string, lifetime: int)

  /** What became of a post. An answer can be lost after the server acted on it. */
  datatype Fate = NotIssued | Refusal(revoke: bool) | Lost(access: string, refresh: string) | Arrived

  /** The rows, the lock and the server: everything the processes share. */
  class Shared {
    var row: Triple
    var valid: string
    var issued: set<string>
    var holder: int

    function View(): World
      reads this
    {
      World(row, valid, issued, holder)
    }

    constructor (row: Triple, valid: string)
      ensures View() == World(row, valid, {row.access, row.refresh, valid}, FREE)
    {
      this.row, this.valid, this.issued, this.holder := row, valid, {row.access, row.refresh, valid}, FREE;
    }

    /** Other processes and the server go about their business; one of them may
        hold the lock at the end. */
    method Others(me: int)
      modifies this
      ensures old(issued) <= issued && row.access in issued && (holder == FREE || holder != me)
    {
      var more: set<string>, other: int := *, *;
      row, valid, holder := *, *, if other == me then FREE else other;
      issued := issued + more + {row.access, row.refresh, valid};
    }

    /** The token endpoint. It accepts the one valid refresh token only. */
    method Post(refresh: string) returns (answer: Answer, ghost fate: Fate)
      modifies `valid, `issued
      ensures match fate
        case NotIssued => answer == Nothing && View() == old(View())
        case Refusal(revoke) => answer == InvalidGrant && refresh != old(valid) &&
                                View() == if revoke then old(View()).(valid := "") else old(View())
        case Lost(a, r) => answer == Nothing && refresh == old(valid) &&
                           NewTokens(old(View()), a, r) && View() == Issue(old(View()), a, r)
        case Arrived => answer.Tokens? && refresh == old(valid) &&
                        NewTokens(old(View()), answer.access, answer.refresh) &&
                        View() == Issue(old(View()), answer.access, answer.refresh)
    {
      var served: bool, revoke: bool, lost: bool := *, *, *;
      if !served {
        return Nothing, NotIssued;
      }
      if refresh != valid {
        if revoke {
          valid := "";
        }
        return InvalidGrant, Refusal(revoke);
      }
      var access: string, next: string, lifetime: int := *, *, *;
      if !NewTokens(View(), access, next) {
        return Nothing, NotIssued;
      }
      issued := issued + {access} + (if Present(next) then {next} else {});
      valid := if Present(next) then next else valid;
      if lost {
        return Nothing, Lost(access, next);
      }
      return Tokens(access, next, lifetime), Arrived;
    }
  }

  datatype PostResult = PostOk | PostRefused | PostUnsaved

  class Process {
    const me: int
    const shared: Shared
    var access: string
    var refresh: string
    var expires: int
    var dirty: bool
    var lockHeld: bool
    ghost var pc: Pc

    ghost function View(): Proc
      reads this
    {
      Proc(access, refresh, expires, dirty, pc)
    }

    /** Outside ensure, with an access token the server issued. */
    ghost predicate Valid()
      reads this, shared
    {
      Outside(pc) && !lockHeld && (Present(access) ==> access in shared.issued)
    }

    constructor (me: int, shared: Shared)
      ensures this.me == me && this.shared == shared
      ensures View() == Proc(shared.row.access, shared.row.refresh, shared.row.expires, false, Idle) && !lockHeld
    {
      this.me, this.shared := me, shared;
      access, refresh, expires := shared.row.access, shared.row.refresh, shared.row.expires;
      dirty, lockHeld, pc := false, false, Idle;
    }

    /** GET_LOCK. The world may have moved on by the time it answers. */
    method Lock() returns (got: bool, ghost before: World)
      requires pc.Waiting? && !lockHeld
      modifies shared, `lockHeld, `pc
      ensures lockHeld == got && old(shared.issued) <= before.issued && before.row.access in before.issued
      ensures pc == if got then Locked(old(pc).force, old(pc).rejected) else Done(false)
      ensures got ==> before.holder == FREE && shared.View() == before.(holder := me)
      ensures !got ==> shared.View() == before && (before.holder == FREE || before.holder != me)
    {
      shared.Others(me);
      before := shared.View();
      got := *;
      if got && shared.holder != FREE {
        got := false;
      }
      if got {
        lockHeld, shared.holder, pc := true, me, Locked(pc.force, pc.rejected);
      } else {
        pc := Done(false);
      }
    }

    method Unlock()
      requires lockHeld && pc.Leaving?
      modifies shared`holder, `lockHeld, `pc
      ensures !lockHeld && pc == Done(old(pc).ok) && shared.holder == FREE
    {
      lockHeld, shared.holder, pc := false, FREE, Done(pc.ok);
    }

    method ReadTokens() returns (ok: bool)
      requires lockHeld
      modifies `access, `refresh, `expires
      ensures ok ==> Triple(access, refresh, expires) == shared.row
      ensures !ok ==> access == old(access) && refresh == old(refresh) && expires == old(expires)
    {
      ok := *;
      if ok {
        access, refresh, expires := shared.row.access, shared.row.refresh, shared.row.expires;
      }
    }

    /** One transaction over the three rows: all of them or none. The answer to
        COMMIT may be a failure although it succeeded. */
    method WriteOnce() returns (ok: bool, ghost e: Step)
      requires lockHeld
      modifies shared`row
      ensures e == CommitFailed || ((e == Committed || e == CommitUnsure) && 0 <= expires <= INT_MAX)
      ensures ok <==> e == Committed
      ensures shared.row == if e == CommitFailed then old(shared.row) else Triple(access, refresh, expires)
    {
      if !Present(access) || !Present(refresh) || expires < 0 || expires > INT_MAX {
        return false, CommitFailed;
      }
      var written: bool := *;
      if !written {
        return false, CommitFailed;
      }
      shared.row := Triple(access, refresh, expires);
      ok := *;
      e := if ok then Committed else CommitUnsure;
    }

    /** One attempt. After the last one the tokens stay in memory only. */
    method WriteTurn(attempt: nat) returns (ok: bool, ghost e: Step)
      requires lockHeld && pc.Writing? && pc.attempts == attempt
      modifies shared`row, `dirty, `pc
      ensures e.Committed? || e.CommitFailed? || e.CommitUnsure?
      ensures ok <==> e == Committed
      ensures Enabled(old(View()), old(shared.View()), e)
      ensures (View(), shared.View()) == Next(old(View()), old(shared.View()), me, e)
    {
      ok, e := WriteOnce();
      if ok {
        dirty, pc := false, Leaving(true);
      } else if attempt + 1 < WRITE_ATTEMPTS {
        pc := Writing(pc.posted, attempt + 1);
      } else {
        dirty, pc := true, if pc.posted then Unsaved else Leaving(true);
      }
    }

    /** Three attempts. */
    method WriteTokens() returns (ok: bool, ghost steps: seq<Step>)
      requires lockHeld && pc.Writing? && pc.attempts == 0
      modifies shared`row, `dirty, `pc
      ensures Leads(old(View()), old(shared.View()), me, steps, View(), shared.View())
      ensures forall e | e in steps :: e.Committed? || e.CommitFailed? || e.CommitUnsure?
      ensures ok ==> pc == Leaving(true)
      ensures !ok ==> pc == (if old(pc).posted then Unsaved else Leaving(true)) && dirty
    {
      steps := [];
      ghost var p, w, posted := View(), shared.View(), pc.posted;
      for attempt := 0 to WRITE_ATTEMPTS
        invariant pc == if attempt < WRITE_ATTEMPTS then Writing(posted, attempt)
                        else if posted then Unsaved else Leaving(true)
        invariant Leads(p, w, me, steps, View(), shared.View())
        invariant forall e | e in steps :: e.CommitFailed? || e.CommitUnsure?
        invariant attempt == WRITE_ATTEMPTS ==> dirty
      {
        ghost var q, v := View(), shared.View();
        ghost var e;
        ok, e := WriteTurn(attempt);
        LeadsOn(p, w, me, steps, q, v, e);
        steps := steps + [e];
        if ok {
          return;
        }
      }
      ok := false;
    }

    /** Takes up granted tokens and saves them. */
    method TakeTokens(answer: Answer, ghost p: Proc, ghost w: World) returns (saved: bool, ghost steps: seq<Step>)
      requires lockHeld && pc.Refreshing? && answer.Tokens? && p == View()
      requires refresh == w.valid && NewTokens(w, answer.access, answer.refresh)
      requires shared.View() == Issue(w, answer.access, answer.refresh)
      modifies shared`row, `access, `refresh, `expires, `dirty, `pc
      ensures Leads(p, w, me, steps, View(), shared.View())
      ensures forall e | e in steps :: InSection(e)
      ensures pc == if saved then Leaving(true) else Unsaved
    {
      access := answer.access;
      if Present(answer.refresh) {
        refresh := answer.refresh;
      }
      var now := Clock();
      expires, pc := now + Lifetime(answer.lifetime), Writing(true, 0);
      ghost var e, q, v := Granted(answer.access, answer.refresh, answer.lifetime, now), View(), shared.View();
      ghost var writes;
      saved, writes := WriteTokens();
      LeadsFirst(p, w, me, e, q, v, writes, View(), shared.View());
      steps := [e] + writes;
    }

    /** Posts the refresh token in memory and saves what comes back. */
    method PostToken() returns (posted: PostResult, ghost steps: seq<Step>)
      requires lockHeld && pc.Refreshing?
      modifies shared`row, shared`valid, shared`issued, `access, `refresh, `expires, `dirty, `pc
      ensures Leads(old(View()), old(shared.View()), me, steps, View(), shared.View())
      ensures forall e | e in steps :: InSection(e)
      ensures pc == match posted case PostOk => Leaving(true) case PostRefused => Leaving(false) case PostUnsaved => Unsaved
    {
      ghost var p, w := View(), shared.View();
      var answer, fate := shared.Post(refresh);
      match answer
      case Nothing =>
        ghost var e := if fate.Lost? then ResponseLost(fate.access, fate.refresh) else PostFailed;
        pc := Leaving(false);
        LeadsOnce(p, w, me, e, View(), shared.View());
        return PostRefused, [e];
      case InvalidGrant =>
        dirty, pc := false, Leaving(false);
        LeadsOnce(p, w, me, Refused(fate.revoke), View(), shared.View());
        return PostRefused, [Refused(fate.revoke)];
      case Tokens(_, _, _) =>
        var saved;
        saved, steps := TakeTokens(answer, p, w);
        posted := if saved then PostOk else PostUnsaved;
    }

    /** Posts, and judges whether what could not be saved is good enough. */
    method Renew() returns (ok: bool, ghost steps: seq<Step>)
      requires lockHeld && pc.Refreshing?
      modifies shared`row, shared`valid, shared`issued, `access, `refresh, `expires, `dirty, `pc
      ensures Leads(old(View()), old(shared.View()), me, steps, View(), shared.View())
      ensures forall e | e in steps :: InSection(e)
      ensures pc == Leaving(ok)
    {
      ghost var p, w := View(), shared.View();
      var posted, taken := PostToken();
      ok, steps := posted == PostOk, taken;
      if posted == PostUnsaved {
        var now := Clock();
        LeadsOn(p, w, me, steps, View(), shared.View(), Judge(now));
        ok, steps := Usable(access, expires, now), steps + [Judge(now)];
        pc := Leaving(ok);
      }
    }

    /** A dirty process never reloads: it saves its tokens, or posts with them. */
    method SectionDirty(force: bool) returns (ok: bool, ghost steps: seq<Step>)
      requires lockHeld && pc.Locked? && pc.force == force && dirty
      modifies shared`row, shared`valid, shared`issued, `access, `refresh, `expires, `dirty, `pc
      ensures Leads(old(View()), old(shared.View()), me, steps, View(), shared.View())
      ensures forall e | e in steps :: InSection(e)
      ensures pc == Leaving(ok)
    {
      var now := Clock();
      ghost var more: seq<Step>;
      if !force && Usable(access, expires, now) {
        pc := Writing(false, 0);
        var saved;
        saved, more := WriteTokens();
        ok := true;
      } else if !Present(refresh) {
        pc := Leaving(false);
        ok, more := false, [];
        assert Leads(View(), shared.View(), me, [], View(), shared.View());
      } else {
        pc := Refreshing;
        ok, more := Renew();
      }
      steps := [Enter(now)] + more;
    }

    method SectionClean(force: bool, rejected: string) returns (ok: bool, ghost steps: seq<Step>)
      requires lockHeld && pc == Locked(force, rejected) && !dirty
      modifies shared`row, shared`valid, shared`issued, `access, `refresh, `expires, `dirty, `pc
      ensures Leads(old(View()), old(shared.View()), me, steps, View(), shared.View())
      ensures forall e | e in steps :: InSection(e)
      ensures pc == Leaving(ok)
    {
      var read := ReadTokens();
      if !read {
        pc := Leaving(false);
        assert Leads(View(), shared.View(), me, [], View(), shared.View());
        return false, [ReadFailed];
      }
      var now := Clock();
      var action := Decide(force, rejected, access, refresh, expires, now);
      ghost var more: seq<Step> := [];
      if action == Refresh {
        pc := Refreshing;
        ok, more := Renew();
      } else {
        ok := action == Use;
        pc := Leaving(ok);
        assert Leads(View(), shared.View(), me, [], View(), shared.View());
      }
      steps := [Read(now)] + more;
    }

    /** The whole stretch from asking for the lock to having released it. */
    method Exclusive(force: bool, rejected: string) returns (ok: bool, ghost between: World, ghost steps: seq<Step>)
      requires pc == Waiting(force, rejected) && !lockHeld
      modifies this, shared
      ensures pc == Done(ok) && !lockHeld
      ensures old(shared.issued) <= between.issued && between.row.access in between.issued
      ensures Leads(old(View()), between, me, steps, View(), shared.View())
      ensures forall e | e in steps :: InSection(e)
    {
      ghost var p := View();
      var got;
      got, between := Lock();
      ghost var q, v := View(), shared.View();
      if !got {
        LeadsOnce(p, between, me, LockDenied, q, v);
        return false, between, [LockDenied];
      }
      ghost var taken;
      if dirty {
        ok, taken := SectionDirty(force);
      } else {
        ok, taken := SectionClean(force, rejected);
      }
      LeadsFirst(p, between, me, LockTaken, q, v, taken, View(), shared.View());
      LeadsOn(p, between, me, [LockTaken] + taken, View(), shared.View(), Step.Unlock);
      Unlock();
      steps := [LockTaken] + taken + [Step.Unlock];
    }

    /** Makes sure there is an access token worth sending. When forced, the one in
        memory was just rejected. */
    method Ensure(force: bool) returns (ok: bool, ghost begun: Step, ghost between: World, ghost steps: seq<Step>)
      requires Valid()
      modifies this, shared
      ensures Valid() && pc == Done(ok) && old(shared.issued) <= shared.issued
      ensures begun.Begin? && begun.force == force && old(shared.issued) <= between.issued
      ensures Leads(BeginStep(old(View()), force, begun.now), between, me, steps, View(), shared.View())
      ensures forall e | e in steps :: InSection(e)
      ensures steps == [] <==> !old(dirty) && !force && Usable(old(access), old(expires), begun.now)
      ensures steps == [] ==> ok && access == old(access) && refresh == old(refresh) && !dirty
      ensures ok && steps != [] ==>
        if FailedCommits(steps) == 3 then dirty else !dirty && shared.row == Triple(access, refresh, expires)
      ensures !ok ==> (exists e :: e in steps && IsCause(e)) || !Present(refresh) ||
                      (dirty && !Usable(access, expires, LastClock(steps, begun.now)))
      ensures (exists e :: e in steps && e.Refused?) ==> !ok && !dirty
      ensures steps != [] ==>
        Posts(steps) == if FoundNeed(old(View()), between.row, force, old(access), steps) then 1 else 0
      ensures ok && force ==> access != old(access)
      ensures ok && !force && (forall e | e in steps :: LongEnough(e)) ==> Usable(access, expires, LastClock(steps, begun.now))
    {
      var now := Clock();
      begun, between, steps := Begin(force, now), shared.View(), [];
      if !dirty && !force && Usable(access, expires, now) {
        pc := Done(true);
        return true, begun, between, steps;
      }
      var rejected := access;
      pc := Waiting(force, rejected);
      ghost var p := View();
      ok, between, steps := Exclusive(force, rejected);
      CallOwes(old(View()), between, me, force, steps, View(), shared.View(), ok, now);
      AccessStaysKnown(p, between, me, steps, View(), shared.View());
      if force {
        ForcedRenews(p, between, me, steps, View(), shared.View(), rejected);
      } else if forall e | e in steps :: LongEnough(e) {
        UnforcedServes(p, between, me, steps, View(), shared.View(), now);
      }
    }

    /** Takes up what another process saved, unless this one holds unsaved tokens. */
    method LoadRows() returns (ok: bool)
      requires Valid() && AccessKnown(View(), shared.View())
      modifies `access, `refresh, `expires
      ensures Valid()
      ensures View() == old(View()) || View() == Reloaded(old(View()), shared.row)
      ensures ok && !dirty ==> View() == Reloaded(old(View()), shared.row) && Present(refresh)
      ensures old(dirty) ==> ok && access == old(access) && refresh == old(refresh) && expires == old(expires)
      ensures ok && !dirty ==>
        && access == (if shared.row.access != "" then shared.row.access else old(access))
        && refresh == (if shared.row.refresh != "" then shared.row.refresh else old(refresh))
        && expires == shared.row.expires
    {
      if dirty {
        return true;
      }
      var loaded: bool := *;
      if !loaded {
        return false;
      }
      expires := shared.row.expires;
      if Present(shared.row.access) {
        access := shared.row.access;
      }
      if Present(shared.row.refresh) {
        refresh := shared.row.refresh;
      }
      return Present(refresh);
    }
  }

  // ---- the two-attempt loop of bx_fetch (src/bx_net.c:271-374)

  datatype Fetched = NoResponse | Response(status: int)

  /** One turn of the loop: what was asked of ensure, whether it succeeded, the
      token then in memory and what came back for it. */
  datatype Attempt = Attempt(force: bool, ok: bool, token: string, answer: Fetched)

  /** curl: the request may not get through. */
  method Perform() returns (response: Fetched) {
    response := *;
  }

  /** There was a token to send. */
  predicate WasSent(a: Attempt) {
    a.ok && Present(a.token)
  }

  /** One attempt. Nothing is sent without a token. */
  method TryOnce(process: Process, force: bool) returns (a: Attempt)
    requires process.Valid()
    modifies process, process.shared
    ensures process.Valid() && a.force == force && a.token == process.access
    ensures !WasSent(a) ==> a.answer == NoResponse
    ensures a.ok && force ==> a.token != old(process.access)
  {
    var ok, begun, between, steps := process.Ensure(force);
    a := Attempt(force, ok, process.access, NoResponse);
    if WasSent(a) {
      var answer := Perform();
      a := a.(answer := answer);
    }
  }

  /** Sends a request with the access token; after a 401, and only then, once
      more with a forced one. */
  method Fetch(process: Process) returns (result: Fetched, attempts: seq<Attempt>)
    requires process.Valid()
    modifies process, process.shared
    ensures process.Valid()
    ensures 1 <= |attempts| <= 2 && result == attempts[|attempts| - 1].answer && !attempts[0].force
    ensures forall i | 0 <= i < |attempts| && !WasSent(attempts[i]) :: attempts[i].answer == NoResponse
    ensures |attempts| == 2 <==> attempts[0].answer == Response(401)
    ensures |attempts| == 2 ==> attempts[1].force && (attempts[1].ok ==> attempts[1].token != attempts[0].token)
  {
    attempts, result := [], NoResponse;
    for attempt := 0 to 2
      invariant process.Valid() && |attempts| == attempt
      invariant attempt > 0 ==> result == attempts[attempt - 1].answer
      invariant attempt > 0 ==> !attempts[0].force && WasSent(attempts[0]) && attempts[0].answer == Response(401)
      invariant attempt == 1 ==> attempts[0].token == process.access
      invariant attempt == 2 ==> attempts[1].force && (attempts[1].ok ==> attempts[1].token != attempts[0].token)
      invariant attempt == 2 && !WasSent(attempts[1]) ==> attempts[1].answer == NoResponse
    {
      var a := TryOnce(process, attempt > 0);
      attempts, result := attempts + [a], a.answer;
      if result != Response(401) || attempt == 1 {
        return;
      }
    }
  }
}
