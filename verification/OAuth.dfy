/** One process's part in refreshing a shared OAuth grant (src/bx_oauth.c): what
    it remembers, what the database and the authorization server hold, and the
    steps of bx_oauth_ensure as a function over both.

    A token is its text; a missing one is the empty text, which is how the code
    treats them (src/bx_oauth.c:94-96). Refresh is section 6 of RFC 6749. */
module OAuth {
  import opened MachineIntegers

  const SKEW := 60
  const DEFAULT_TTL := 300
  const WRITE_ATTEMPTS := 3
  const FREE := -1

  predicate Present(token: string) {
    token != ""
  }

  predicate Usable(access: string, expires: int, now: int) {
    Present(access) && now + SKEW < expires
  }

  datatype Action = Use | Refresh | NeedLogin

  function Decide(force: bool, rejected: string, access: string, refresh: string, expires: int, now: int): Action {
    var accessOk := Usable(access, expires, now);
    if !force && accessOk then Use
    else if force && accessOk && (!Present(rejected) || rejected != access) then Use
    else if !Present(refresh) then NeedLogin
    else Refresh
  }

  /** Where a process is in bx_oauth_ensure. */
  datatype Pc =
    | Idle
    | Waiting(force: bool, rejected: string)     // past the fast path, without the lock
    | Locked(force: bool, rejected: string)      // has the lock, has read nothing yet
    | Refreshing                                 // about to post the refresh token in memory
    | Writing(posted: bool, attempts: nat)       // tokens in memory that no commit has saved
    | Unsaved                                    // every write attempt after a post failed
    | Leaving(ok: bool)                          // about to release the lock
    | Done(ok: bool)

  datatype Proc = Proc(access: string, refresh: string, expires: int, dirty: bool, pc: Pc)

  datatype Triple = Triple(access: string, refresh: string, expires: int)

  /** The shared rows, the server's one valid refresh token, every token it ever
      issued, and who holds the named lock. */
  datatype World = World(row: Triple, valid: string, issued: set<string>, holder: int)

  datatype Step =
    | Begin(force: bool, now: int)
    | LockDenied
    | LockTaken
    | Enter(now: int)                            // dirty: memory is not reloaded
    | ReadFailed
    | Read(now: int)
    | PostFailed                                 // nothing was issued
    | Refused(revoke: bool)                      // invalid_grant; the server may drop the grant
    | ResponseLost(access: string, refresh: string)
    | Granted(access: string, refresh: string, lifetime: int, now: int)
    | Committed
    | CommitFailed
    | CommitUnsure                               // the rows were written, the process was told they were not
    | Judge(now: int)                            // is what could not be saved good enough to go on with?
    | Unlock
    | Crash                                      // and start again
    | Reload

  predicate HoldsLock(pc: Pc) {
    pc.Locked? || pc.Refreshing? || pc.Writing? || pc.Unsaved? || pc.Leaving?
  }

  predicate Outside(pc: Pc) {
    pc.Idle? || pc.Done?
  }

  /** The server never issues a token twice. */
  predicate NewTokens(w: World, access: string, refresh: string) {
    && Present(access) && access !in w.issued
    && (Present(refresh) ==> refresh !in w.issued && refresh != access)
  }

  predicate Enabled(p: Proc, w: World, e: Step) {
    match e
    case Begin(_, _) => Outside(p.pc)
    case LockDenied => p.pc.Waiting?
    case LockTaken => p.pc.Waiting? && w.holder == FREE
    case Enter(_) => p.pc.Locked? && p.dirty
    case ReadFailed => p.pc.Locked? && !p.dirty
    case Read(_) => p.pc.Locked? && !p.dirty
    case PostFailed => p.pc.Refreshing?
    case Refused(_) => p.pc.Refreshing? && p.refresh != w.valid
    case ResponseLost(access, refresh) => p.pc.Refreshing? && p.refresh == w.valid && NewTokens(w, access, refresh)
    case Granted(access, refresh, _, _) => p.pc.Refreshing? && p.refresh == w.valid && NewTokens(w, access, refresh)
    case Committed => p.pc.Writing? && 0 <= p.expires <= INT_MAX
    case CommitFailed => p.pc.Writing?
    case CommitUnsure => p.pc.Writing? && 0 <= p.expires <= INT_MAX
    case Judge(_) => p.pc.Unsaved?
    case Unlock => p.pc.Leaving?
    case Crash => true
    case Reload => Outside(p.pc)
  }

  function Issue(w: World, access: string, refresh: string): World {
    w.(valid := if Present(refresh) then refresh else w.valid,
       issued := w.issued + {access} + (if Present(refresh) then {refresh} else {}))
  }

  function Lifetime(answered: int): int {
    if answered <= 0 then DEFAULT_TTL else answered
  }

  function BeginStep(p: Proc, force: bool, now: int): Proc {
    if !p.dirty && !force && Usable(p.access, p.expires, now) then p.(pc := Done(true))
    else p.(pc := Waiting(force, p.access))
  }

  function EnterStep(p: Proc, now: int): Proc
    requires p.pc.Locked?
  {
    if !p.pc.force && Usable(p.access, p.expires, now) then p.(pc := Writing(false, 0))
    else if !Present(p.refresh) then p.(pc := Leaving(false))
    else p.(pc := Refreshing)
  }

  function ReadStep(p: Proc, row: Triple, now: int): Proc
    requires p.pc.Locked?
  {
    var q := p.(access := row.access, refresh := row.refresh, expires := row.expires);
    match Decide(p.pc.force, p.pc.rejected, row.access, row.refresh, row.expires, now)
    case Use => q.(pc := Leaving(true))
    case NeedLogin => q.(pc := Leaving(false))
    case Refresh => q.(pc := Refreshing)
  }

  function GrantedStep(p: Proc, access: string, refresh: string, lifetime: int, now: int): Proc {
    p.(access := access, refresh := if Present(refresh) then refresh else p.refresh,
       expires := now + Lifetime(lifetime), pc := Writing(true, 0))
  }

  /** What a commit writes. */
  function Kept(p: Proc): Triple {
    Triple(p.access, p.refresh, p.expires)
  }

  function CommitFailedStep(p: Proc): Proc
    requires p.pc.Writing?
  {
    if p.pc.attempts + 1 < WRITE_ATTEMPTS then p.(pc := Writing(p.pc.posted, p.pc.attempts + 1))
    else p.(dirty := true, pc := if p.pc.posted then Unsaved else Leaving(true))
  }

  /** Reloading keeps a token the row lacks. */
  function Reloaded(p: Proc, row: Triple): Proc {
    if p.dirty then p
    else p.(access := if Present(row.access) then row.access else p.access,
            refresh := if Present(row.refresh) then row.refresh else p.refresh,
            expires := row.expires)
  }

  function Next(p: Proc, w: World, me: int, e: Step): (Proc, World)
    requires Enabled(p, w, e)
  {
    match e
    case Begin(force, now) => (BeginStep(p, force, now), w)
    case LockDenied => (p.(pc := Done(false)), w)
    case LockTaken => (p.(pc := Locked(p.pc.force, p.pc.rejected)), w.(holder := me))
    case Enter(now) => (EnterStep(p, now), w)
    case ReadFailed => (p.(pc := Leaving(false)), w)
    case Read(now) => (ReadStep(p, w.row, now), w)
    case PostFailed => (p.(pc := Leaving(false)), w)
    case Refused(revoke) =>
      (p.(dirty := false, pc := Leaving(false)), if revoke then w.(valid := "") else w)
    case ResponseLost(access, refresh) => (p.(pc := Leaving(false)), Issue(w, access, refresh))
    case Granted(access, refresh, lifetime, now) =>
      (GrantedStep(p, access, refresh, lifetime, now), Issue(w, access, refresh))
    case Committed => (p.(dirty := false, pc := Leaving(true)), w.(row := Kept(p)))
    case CommitFailed => (CommitFailedStep(p), w)
    case CommitUnsure => (CommitFailedStep(p), w.(row := Kept(p)))
    case Judge(now) => (p.(pc := Leaving(Usable(p.access, p.expires, now))), w)
    case Unlock => (p.(pc := Done(p.pc.ok)), w.(holder := FREE))
    case Crash =>
      (Proc(w.row.access, w.row.refresh, w.row.expires, false, Idle),
       if HoldsLock(p.pc) then w.(holder := FREE) else w)
    case Reload => (Reloaded(p, w.row), w)
  }

  function Held(w: World, who: int): World {
    w.(holder := who)
  }

  /** Steps of one process that nobody else comes between. */
  ghost predicate Leads(p: Proc, w: World, me: int, steps: seq<Step>, q: Proc, v: World)
    decreases |steps|
  {
    if steps == [] then q == p && v == w
    else Enabled(p, w, steps[0]) &&
         var (p', w') := Next(p, w, me, steps[0]); Leads(p', w', me, steps[1..], q, v)
  }

  lemma LeadsFirst(p: Proc, w: World, me: int, e: Step, p': Proc, w': World, more: seq<Step>, q: Proc, v: World)
    requires Enabled(p, w, e) && Next(p, w, me, e) == (p', w') && Leads(p', w', me, more, q, v)
    ensures Leads(p, w, me, [e] + more, q, v)
  {
    assert ([e] + more)[1..] == more;
  }

  lemma LeadsOnce(p: Proc, w: World, me: int, e: Step, q: Proc, v: World)
    requires Enabled(p, w, e) && Next(p, w, me, e) == (q, v)
    ensures Leads(p, w, me, [e], q, v)
  {
    assert Leads(q, v, me, [], q, v);
  }

  lemma {:induction false} LeadsOn(p: Proc, w: World, me: int, steps: seq<Step>, q: Proc, v: World, e: Step)
    requires Leads(p, w, me, steps, q, v) && Enabled(q, v, e)
    ensures var (r, u) := Next(q, v, me, e); Leads(p, w, me, steps + [e], r, u)
    decreases |steps|
  {
    if steps == [] {
    } else {
      var (p', w') := Next(p, w, me, steps[0]);
      LeadsOn(p', w', me, steps[1..], q, v, e);
      assert (steps + [e])[1..] == steps[1..] + [e];
    }
  }

  /** One more step of a stretch, with the state it leads to spelled out. */
  lemma LeadsNext(p: Proc, w: World, me: int, steps: seq<Step>, q: Proc, v: World, e: Step, r: Proc, u: World)
    requires Leads(p, w, me, steps, q, v) && Enabled(q, v, e) && Next(q, v, me, e) == (r, u)
    ensures Leads(p, w, me, steps + [e], r, u)
  {
    LeadsOn(p, w, me, steps, q, v, e);
  }

  lemma {:induction false} LeadsThrough(p: Proc, w: World, me: int, steps: seq<Step>, q: Proc, v: World,
                                        more: seq<Step>, r: Proc, u: World)
    requires Leads(p, w, me, steps, q, v) && Leads(q, v, me, more, r, u)
    ensures Leads(p, w, me, steps + more, r, u)
    decreases |steps|
  {
    if steps == [] {
      assert steps + more == more;
    } else {
      var (p', w') := Next(p, w, me, steps[0]);
      LeadsThrough(p', w', me, steps[1..], q, v, more, r, u);
      assert (steps + more)[1..] == steps[1..] + more;
    }
  }

  predicate AccessKnown(p: Proc, w: World) {
    (Present(p.access) ==> p.access in w.issued) && (Present(w.row.access) ==> w.row.access in w.issued)
  }

  lemma {:induction false} AccessStaysKnown(p: Proc, w: World, me: int, steps: seq<Step>, q: Proc, v: World)
    requires Leads(p, w, me, steps, q, v) && AccessKnown(p, w)
    ensures AccessKnown(q, v) && w.issued <= v.issued
    decreases |steps|
  {
    if steps == [] {
    } else {
      var (p', w') := Next(p, w, me, steps[0]);
      AccessStaysKnown(p', w', me, steps[1..], q, v);
    }
  }

  // ---- what a successful call means

  predicate InSection(e: Step) {
    !e.Begin? && !e.Crash? && !e.Reload?
  }

  /** A forced call on its way: success will mean another access token than the rejected one. */
  predicate Renewing(p: Proc, w: World, rejected: string) {
    && (Present(rejected) ==> rejected in w.issued)
    && match p.pc
       case Idle => false
       case Waiting(force, r) => force && r == rejected
       case Locked(force, r) => force && r == rejected
       case Refreshing => true
       case Writing(posted, _) => posted && p.access != rejected
       case Unsaved => p.access != rejected
       case Leaving(ok) => ok ==> p.access != rejected
       case Done(ok) => ok ==> p.access != rejected
  }

  /** A forced call never succeeds with the token it was called to replace. */
  lemma {:induction false} ForcedRenews(p: Proc, w: World, me: int, steps: seq<Step>, q: Proc, v: World, rejected: string)
    requires Leads(p, w, me, steps, q, v) && Renewing(p, w, rejected)
    requires forall e | e in steps :: InSection(e)
    ensures Renewing(q, v, rejected)
    decreases |steps|
  {
    if steps == [] {
    } else {
      assert steps[0] in steps;
      var (p', w') := Next(p, w, me, steps[0]);
      ForcedRenews(p', w', me, steps[1..], q, v, rejected);
    }
  }

  function ClockAfter(e: Step, t: int): int {
    match e
    case Enter(now) => now
    case Read(now) => now
    case Granted(_, _, _, now) => now
    case Judge(now) => now
    case _ => t
  }

  /** When the clock was last read. */
  function LastClock(steps: seq<Step>, t: int): int {
    if steps == [] then t else LastClock(steps[1..], ClockAfter(steps[0], t))
  }

  /** Grants live longer than the safety margin, or get the default. */
  predicate LongEnough(e: Step) {
    e.Granted? ==> Lifetime(e.lifetime) > SKEW
  }

  /** An unforced call on its way: success will mean a token usable when the clock was last read. */
  predicate Serving(p: Proc, t: int) {
    match p.pc
    case Idle => false
    case Waiting(force, _) => !force
    case Locked(force, _) => !force
    case Refreshing => true
    case Writing(_, _) => Usable(p.access, p.expires, t)
    case Unsaved => true
    case Leaving(ok) => ok ==> Usable(p.access, p.expires, t)
    case Done(ok) => ok ==> Usable(p.access, p.expires, t)
  }

  lemma {:induction false} UnforcedServes(p: Proc, w: World, me: int, steps: seq<Step>, q: Proc, v: World, t: int)
    requires Leads(p, w, me, steps, q, v) && Serving(p, t)
    requires forall e | e in steps :: InSection(e) && LongEnough(e)
    ensures Serving(q, LastClock(steps, t))
    decreases |steps|
  {
    if steps == [] {
    } else {
      assert steps[0] in steps;
      var (p', w') := Next(p, w, me, steps[0]);
      UnforcedServes(p', w', me, steps[1..], q, v, ClockAfter(steps[0], t));
    }
  }

  /** The bound is exact: a saved grant is usable when issued iff it outlives the margin. */
  lemma GrantServesIffLongEnough(p: Proc, w: World, me: int, access: string, refresh: string, lifetime: int, now: int)
    returns (steps: seq<Step>, q: Proc, v: World)
    requires p.pc.Refreshing? && Enabled(p, w, Granted(access, refresh, lifetime, now))
    requires 0 <= now + Lifetime(lifetime) <= INT_MAX
    ensures Leads(p, w, me, steps, q, v) && q.pc == Done(true) && LastClock(steps, now) == now
    ensures Usable(q.access, q.expires, now) <==> LongEnough(Granted(access, refresh, lifetime, now))
  {
    var e := Granted(access, refresh, lifetime, now);
    steps := [e, Committed, Unlock];
    var (p1, w1) := Next(p, w, me, e);
    var (p2, w2) := Next(p1, w1, me, Committed);
    var (p3, w3) := Next(p2, w2, me, Unlock);
    q, v := p3, w3;
    assert steps[1..] == [Committed, Unlock] && [Committed, Unlock][1..] == [Unlock];
    assert LastClock([Unlock], now) == now;
    assert LastClock([Committed, Unlock], now) == now;
    assert Leads(p3, w3, me, [], q, v);
    assert Leads(p2, w2, me, [Unlock], q, v);
    assert Leads(p1, w1, me, [Committed, Unlock], q, v);
  }
}
