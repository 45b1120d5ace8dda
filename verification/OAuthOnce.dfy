/** One expired or rejected access token costs one refresh, however many
    processes notice it. */
module OAuthOnce {
  import opened OAuth
  import opened OAuthRuns

  /** Every process is at rest with the access token the row still has. */
  ghost predicate AllHave(s: System, row: Triple) {
    && Rested(s) && s.world.row == row
    && (Present(row.access) ==> row.access in s.world.issued)
    && forall p | 0 <= p < |s.procs| :: s.procs[p].pc.Idle? && s.procs[p].access == row.access
  }

  /** A move of a run in which each process calls ensure once and nothing fails,
      the old access token was rejected or is no longer usable, and a new one
      stays usable. */
  predicate Smooth(s: System, row: Triple, m: Move) {
    m.who < |s.procs| &&
    var p := s.procs[m.who];
    match m.step
    case Begin(force, now) => p.pc.Idle? && (force || !Usable(p.access, p.expires, now))
    case Read(now) =>
      p.pc.Locked? &&
      if s.world.row.access == row.access then p.pc.force || !Usable(row.access, row.expires, now)
      else Usable(s.world.row.access, s.world.row.expires, now)
    case Granted(_, refresh, _, _) => Present(refresh)
    case _ => m.step.LockTaken? || m.step.Enter? || m.step.Refused? || m.step.Committed? || m.step.Unlock?
  }

  predicate NotServed(p: Proc, gone: string) {
    && !p.dirty && p.access == gone
    && match p.pc
       case Idle => true
       case Waiting(_, rejected) => rejected == gone
       case _ => false
  }

  predicate Asking(p: Proc, gone: string) {
    && !p.dirty && p.access == gone
    && (p.pc.Refreshing? || (p.pc.Locked? && p.pc.rejected == gone))
  }

  predicate Served(p: Proc, issued: string) {
    !p.dirty && p.access == issued && (p.pc == Leaving(true) || p.pc == Done(true))
  }

  /** No grant yet. */
  ghost predicate Before(s: System, row: Triple) {
    && s.world.row == row && s.world.valid == row.refresh && Present(s.world.valid)
    && forall p | 0 <= p < |s.procs| :: NotServed(s.procs[p], row.access) || Asking(s.procs[p], row.access)
  }

  /** Process h was granted the new token and has not saved it. */
  ghost predicate During(s: System, row: Triple, issued: string, h: nat) {
    && s.world.row == row && h < |s.procs|
    && !s.procs[h].dirty && s.procs[h].pc.Writing? && s.procs[h].access == issued
    && forall p | 0 <= p < |s.procs| && p != h :: NotServed(s.procs[p], row.access)
  }

  /** The new token is in the row. */
  ghost predicate Afterwards(s: System, row: Triple, issued: string) {
    && s.world.row.access == issued
    && forall p | 0 <= p < |s.procs| ::
         || NotServed(s.procs[p], row.access) || Served(s.procs[p], issued)
         || (Asking(s.procs[p], row.access) && s.procs[p].pc.Locked?)
  }

  ghost predicate Issuing(s: System, row: Triple, issued: string, grants: nat) {
    && (Present(row.access) ==> row.access in s.world.issued)
    && if grants == 0 then Before(s, row)
       else grants == 1 && issued != row.access && ((exists h :: During(s, row, issued, h)) || Afterwards(s, row, issued))
  }

  function Grants(moves: seq<Move>): nat {
    if moves == [] then 0
    else Grants(moves[..|moves| - 1]) + (if moves[|moves| - 1].step.Granted? then 1 else 0)
  }

  lemma BeforeMove(s: System, row: Triple, m: Move)
    requires Sound(s) && Before(s, row) && CanMove(s, m) && Smooth(s, row, m)
    requires Present(row.access) ==> row.access in s.world.issued
    ensures if m.step.Granted?
            then During(Moved(s, m), row, m.step.access, m.who) && m.step.access != row.access
            else Before(Moved(s, m), row)
  {
  }

  lemma DuringMove(s: System, row: Triple, issued: string, h: nat, m: Move)
    requires Sound(s) && During(s, row, issued, h) && CanMove(s, m) && Smooth(s, row, m)
    ensures !m.step.Granted?
    ensures During(Moved(s, m), row, issued, h) || Afterwards(Moved(s, m), row, issued)
  {
  }

  lemma AfterwardsMove(s: System, row: Triple, issued: string, m: Move)
    requires Sound(s) && Afterwards(s, row, issued) && CanMove(s, m) && Smooth(s, row, m) && issued != row.access
    ensures !m.step.Granted?
    ensures Afterwards(Moved(s, m), row, issued)
  {
  }

  lemma {:induction false} OneGrant(s: System, row: Triple, moves: seq<Move>) returns (issued: string)
    requires AllHave(s, row) && IsRun(s, moves)
    requires forall i | 0 <= i < |moves| :: Smooth(Final(s, moves[..i]), row, moves[i])
    ensures Sound(Final(s, moves)) && Issuing(Final(s, moves), row, issued, Grants(moves))
  {
    if moves == [] {
      issued := "";
      assert forall p | 0 <= p < |s.procs| :: !Pending(s.procs[p]);
    } else {
      var init, last := moves[..|moves| - 1], moves[|moves| - 1];
      RunBefore(s, moves);
      forall i | 0 <= i < |init| ensures Smooth(Final(s, init[..i]), row, init[i]) {
        assert init[..i] == moves[..i];
      }
      issued := OneGrant(s, row, init);
      var r := Final(s, init);
      MoveSound(r, last);
      if Grants(init) == 0 {
        BeforeMove(r, row, last);
        if last.step.Granted? {
          issued := last.step.access;
        }
      } else if Afterwards(r, row, issued) {
        AfterwardsMove(r, row, issued, last);
      } else {
        var h: nat :| During(r, row, issued, h);
        DuringMove(r, row, issued, h, last);
      }
    }
  }

  /** Any number of processes that hold the same rejected or expired access token
      and each run ensure once, in any interleaving: the server accepts exactly
      one refresh, every call succeeds and all end with the same new token. */
  lemma {:induction false} OneRefreshServesAll(s: System, row: Triple, moves: seq<Move>) returns (issued: string)
    requires AllHave(s, row) && IsRun(s, moves) && s.procs != []
    requires forall i | 0 <= i < |moves| :: Smooth(Final(s, moves[..i]), row, moves[i])
    requires forall p | 0 <= p < |Final(s, moves).procs| :: Final(s, moves).procs[p].pc.Done?
    ensures Grants(moves) == 1 && issued != row.access
    ensures |Final(s, moves).procs| == |s.procs|
    ensures forall p | 0 <= p < |s.procs| ::
      Final(s, moves).procs[p].access == issued && Final(s, moves).procs[p].pc == Done(true)
  {
    issued := OneGrant(s, row, moves);
    SameProcs(s, moves);
    var r := Final(s, moves);
    assert !Asking(r.procs[0], row.access) && !NotServed(r.procs[0], row.access);
    assert !Before(r, row);
  }

  lemma {:induction false} SameProcs(s: System, moves: seq<Move>)
    ensures |Final(s, moves).procs| == |s.procs|
  {
    if moves == [] {
    } else {
      SameProcs(s, moves[..|moves| - 1]);
    }
  }
}
