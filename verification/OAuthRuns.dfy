/** Any number of processes sharing one OAuth grant, their steps interleaved in
    any order: where the valid refresh token is, which posts carry it, and how
    many refreshes one expired access token costs. */
module OAuthRuns {
  import opened OAuth

  datatype System = System(world: World, procs: seq<Proc>)

  datatype Move = Move(who: nat, step: Step)

  predicate CanMove(s: System, m: Move) {
    m.who < |s.procs| && Enabled(s.procs[m.who], s.world, m.step)
  }

  function Moved(s: System, m: Move): System {
    if CanMove(s, m) then
      var (p, w) := Next(s.procs[m.who], s.world, m.who, m.step);
      System(w, s.procs[m.who := p])
    else s
  }

  function Final(s: System, moves: seq<Move>): System {
    if moves == [] then s else Moved(Final(s, moves[..|moves| - 1]), moves[|moves| - 1])
  }

  ghost predicate IsRun(s: System, moves: seq<Move>) {
    forall i | 0 <= i < |moves| :: CanMove(Final(s, moves[..i]), moves[i])
  }

  lemma RunBefore(s: System, moves: seq<Move>)
    requires IsRun(s, moves) && moves != []
    ensures IsRun(s, moves[..|moves| - 1])
    ensures CanMove(Final(s, moves[..|moves| - 1]), moves[|moves| - 1])
  {
    var init := moves[..|moves| - 1];
    forall i | 0 <= i < |init| ensures CanMove(Final(s, init[..i]), init[i]) {
      assert init[..i] == moves[..i];
    }
  }

  // ---- where the valid token is

  /** Holds tokens that no commit has saved. */
  predicate Pending(p: Proc) {
    p.dirty || p.pc.Writing?
  }

  predicate Known(w: World, token: string) {
    Present(token) ==> token in w.issued
  }

  ghost predicate LockExcludes(s: System) {
    && (forall p | 0 <= p < |s.procs| :: HoldsLock(s.procs[p].pc) <==> s.world.holder == p)
    && (s.world.holder == FREE || 0 <= s.world.holder < |s.procs|)
  }

  ghost predicate TokensKnown(s: System) {
    && Known(s.world, s.world.valid) && Known(s.world, s.world.row.refresh)
    && forall p | 0 <= p < |s.procs| :: Known(s.world, s.procs[p].refresh)
  }

  /** Who is about to post has a token: the row's, unless it is dirty. */
  ghost predicate PostsRow(s: System) {
    forall p | 0 <= p < |s.procs| && s.procs[p].pc.Refreshing? ::
      Present(s.procs[p].refresh) && (!s.procs[p].dirty ==> s.procs[p].refresh == s.world.row.refresh)
  }

  ghost predicate Sound(s: System) {
    LockExcludes(s) && TokensKnown(s) && PostsRow(s)
  }

  /** In the row, and nobody holds unsaved tokens; unless it is the lock holder,
      still writing, with the very same refresh token. */
  ghost predicate InRow(s: System) {
    && s.world.row.refresh == s.world.valid
    && forall p | 0 <= p < |s.procs| && Pending(s.procs[p]) ::
         s.procs[p].pc.Writing? && s.procs[p].refresh == s.world.row.refresh
  }

  /** In process p alone: the lock holder between post and commit, or the one dirty process. */
  ghost predicate InProcess(s: System, p: nat) {
    && p < |s.procs| && Pending(s.procs[p]) && s.procs[p].refresh == s.world.valid
    && s.world.row.refresh != s.world.valid
    && forall q | 0 <= q < |s.procs| && q != p :: !Pending(s.procs[q]) && s.procs[q].refresh != s.world.valid
  }

  ghost predicate Located(s: System) {
    InRow(s) || exists p :: InProcess(s, p)
  }

  /** Nobody has it and nobody will. */
  ghost predicate Unknown(s: System) {
    s.world.row.refresh != s.world.valid && forall p | 0 <= p < |s.procs| :: s.procs[p].refresh != s.world.valid
  }

  /** A move that destroys the only copy: the answer that brought the new refresh
      token does not arrive, or the process dies with one that the row lacks. */
  ghost predicate IsLoss(s: System, m: Move) {
    m.who < |s.procs| &&
    ((m.step.ResponseLost? && Present(m.step.refresh)) ||
     (m.step.Crash? && Pending(s.procs[m.who]) && s.procs[m.who].refresh != s.world.row.refresh))
  }

  /** A process gives up writing while the row has the refresh token it goes on
      to take for unsaved: the grant brought no new one, or a commit was reported
      failed although it succeeded. */
  ghost predicate LeavesCopy(s: System, m: Move) {
    var r := Moved(s, m);
    && m.who < |s.procs| && (m.step.CommitFailed? || m.step.CommitUnsure?)
    && !r.procs[m.who].pc.Writing? && r.procs[m.who].refresh == r.world.row.refresh
  }

  ghost predicate LeavesNoCopy(s: System, moves: seq<Move>) {
    forall i | 0 <= i < |moves| :: !LeavesCopy(Final(s, moves[..i]), moves[i])
  }

  lemma MoveExcludes(s: System, m: Move)
    requires LockExcludes(s) && CanMove(s, m)
    ensures LockExcludes(Moved(s, m))
  {
  }

  lemma MoveKnown(s: System, m: Move)
    requires TokensKnown(s) && CanMove(s, m)
    ensures TokensKnown(Moved(s, m))
  {
  }

  lemma MovePosts(s: System, m: Move)
    requires LockExcludes(s) && PostsRow(s) && CanMove(s, m)
    ensures PostsRow(Moved(s, m))
  {
  }

  lemma MoveSound(s: System, m: Move)
    requires Sound(s) && CanMove(s, m)
    ensures Sound(Moved(s, m))
  {
    MoveExcludes(s, m);
    MoveKnown(s, m);
    MovePosts(s, m);
  }

  lemma LocatedRow(s: System, m: Move)
    requires Sound(s) && CanMove(s, m) && Present(s.world.valid)
    requires InRow(s) && !IsLoss(s, m) && !LeavesCopy(s, m)
    ensures var r := Moved(s, m);
            if m.step.Granted? && Present(m.step.refresh) then InProcess(r, m.who) else InRow(r)
  {
  }

  lemma LocatedProcess(s: System, m: Move, p: nat)
    requires Sound(s) && CanMove(s, m) && Present(s.world.valid)
    requires InProcess(s, p) && !IsLoss(s, m) && !LeavesCopy(s, m)
    ensures var r := Moved(s, m);
            Present(r.world.valid) ==> if m.step.Committed? || m.step.CommitUnsure? then InRow(r) else InProcess(r, p)
  {
  }

  lemma MoveLocated(s: System, m: Move)
    requires Sound(s) && CanMove(s, m) && Present(s.world.valid)
    requires Located(s) && !IsLoss(s, m) && !LeavesCopy(s, m)
    ensures var r := Moved(s, m); Present(r.world.valid) ==> Located(r)
  {
    if InRow(s) {
      LocatedRow(s, m);
    } else {
      var p: nat :| InProcess(s, p);
      LocatedProcess(s, m, p);
    }
  }

  /** Giving up with a copy of what the row has is what ends this, at once. */
  lemma CopyIsNotLocated(s: System, m: Move)
    requires CanMove(s, m) && LeavesCopy(s, m)
    ensures !Located(Moved(s, m))
  {
    var r := Moved(s, m);
    assert Pending(r.procs[m.who]);
  }

  lemma MoveLost(s: System, m: Move)
    requires Sound(s) && CanMove(s, m) && Present(s.world.valid)
    requires Located(s) && IsLoss(s, m)
    ensures Unknown(Moved(s, m))
  {
  }

  lemma MoveUnknown(s: System, m: Move)
    requires Sound(s) && CanMove(s, m) && Present(s.world.valid)
    requires Unknown(s)
    ensures var r := Moved(s, m); Present(r.world.valid) ==> Unknown(r)
  {
  }

  /** No grant left, nothing to lose. */
  lemma MoveRevoked(s: System, m: Move)
    requires PostsRow(s) && CanMove(s, m) && !Present(s.world.valid)
    ensures !Present(Moved(s, m).world.valid)
  {
  }

  /** A start with the grant in the row, the lock free and every process at rest. */
  ghost predicate Rested(s: System) {
    && Sound(s) && s.world.holder == FREE && InRow(s) && Present(s.world.valid)
    && forall p | 0 <= p < |s.procs| :: Outside(s.procs[p].pc)
  }

  ghost predicate HasLoss(s: System, moves: seq<Move>) {
    exists i :: 0 <= i < |moves| && IsLoss(Final(s, moves[..i]), moves[i])
  }

  lemma LossBefore(s: System, moves: seq<Move>)
    requires moves != []
    ensures var init := moves[..|moves| - 1];
            HasLoss(s, moves) <==> HasLoss(s, init) || IsLoss(Final(s, init), moves[|moves| - 1])
  {
    var init := moves[..|moves| - 1];
    assert forall i | 0 <= i < |init| :: init[..i] == moves[..i];
    if HasLoss(s, init) {
      var i :| 0 <= i < |init| && IsLoss(Final(s, init[..i]), init[i]);
      assert IsLoss(Final(s, moves[..i]), moves[i]);
    }
  }

  lemma CopyBefore(s: System, moves: seq<Move>)
    requires moves != [] && LeavesNoCopy(s, moves)
    ensures var init := moves[..|moves| - 1];
            LeavesNoCopy(s, init) && !LeavesCopy(Final(s, init), moves[|moves| - 1])
  {
    var init := moves[..|moves| - 1];
    assert forall i | 0 <= i < |init| :: init[..i] == moves[..i];
  }

  /** Whatever the interleaving and however many commits fail, while the grant
      exists the valid refresh token is in the row, or with the lock holder
      between post and commit, or with one dirty process: exactly when the run
      lost no answer that brought one and no process with one the row lacked. */
  lemma {:induction false} LocatedUnlessLost(s: System, moves: seq<Move>)
    requires Rested(s) && IsRun(s, moves) && LeavesNoCopy(s, moves)
    ensures var r := Final(s, moves);
            && Sound(r)
            && (Present(r.world.valid) ==> (Located(r) <==> !HasLoss(s, moves)))
            && (Present(r.world.valid) && HasLoss(s, moves) ==> Unknown(r))
  {
    if moves == [] {
    } else {
      var init, last := moves[..|moves| - 1], moves[|moves| - 1];
      RunBefore(s, moves);
      CopyBefore(s, moves);
      LocatedUnlessLost(s, init);
      LossBefore(s, moves);
      var r := Final(s, init);
      MoveSound(r, last);
      if !Present(r.world.valid) {
        MoveRevoked(r, last);
      } else if HasLoss(s, init) {
        MoveUnknown(r, last);
      } else if IsLoss(r, last) {
        MoveLost(r, last);
      } else {
        MoveLocated(r, last);
      }
    }
  }

  // ---- what is posted

  predicate IsPost(e: Step) {
    e.PostFailed? || e.Refused? || e.ResponseLost? || e.Granted?
  }

  /** A post carries the valid token iff no other process holds unsaved ones. */
  lemma {:induction false} PostIsValidIffNoneElsePending(s: System, moves: seq<Move>, m: Move)
    requires Rested(s) && IsRun(s, moves) && !HasLoss(s, moves) && LeavesNoCopy(s, moves)
    requires CanMove(Final(s, moves), m) && IsPost(m.step) && Present(Final(s, moves).world.valid)
    ensures var r := Final(s, moves);
            r.procs[m.who].refresh == r.world.valid <==>
            forall q | 0 <= q < |r.procs| && q != m.who :: !Pending(r.procs[q])
  {
    LocatedUnlessLost(s, moves);
    var r := Final(s, moves);
    if !InRow(r) {
      var p: nat :| InProcess(r, p);
      assert p == m.who || Pending(r.procs[p]);
    }
  }

  /** As long as every commit succeeds and nothing is lost. */
  predicate Saves(e: Step) {
    !e.CommitFailed? && !e.CommitUnsure?
  }

  ghost predicate NoneDirty(s: System) {
    Present(s.world.valid) && forall p | 0 <= p < |s.procs| :: !s.procs[p].dirty
  }

  lemma MoveNoneDirty(s: System, m: Move)
    requires Sound(s) && Located(s) && NoneDirty(s) && CanMove(s, m) && Saves(m.step)
    ensures IsPost(m.step) ==> s.procs[m.who].refresh == s.world.valid
    ensures NoneDirty(Moved(s, m))
  {
  }

  lemma {:induction false} RunNoneDirty(s: System, moves: seq<Move>)
    requires Rested(s) && IsRun(s, moves) && !HasLoss(s, moves)
    requires forall m | m in moves :: Saves(m.step)
    ensures NoneDirty(Final(s, moves)) && Sound(Final(s, moves)) && Located(Final(s, moves))
  {
    LocatedUnlessLost(s, moves);
    if moves == [] {
      assert forall p | 0 <= p < |s.procs| :: !Pending(s.procs[p]);
    } else {
      var init := moves[..|moves| - 1];
      RunBefore(s, moves);
      LossBefore(s, moves);
      RunNoneDirty(s, init);
      assert moves[|moves| - 1] in moves;
      MoveNoneDirty(Final(s, init), moves[|moves| - 1]);
    }
  }

  /** If no commit fails and nothing is lost, every refresh posted is the valid
      token, and none is ever refused; whether or not the server rotates it. */
  lemma {:induction false} EveryPostIsValid(s: System, moves: seq<Move>, m: Move)
    requires Rested(s) && IsRun(s, moves) && !HasLoss(s, moves)
    requires forall m | m in moves :: Saves(m.step)
    requires CanMove(Final(s, moves), m) && IsPost(m.step)
    ensures var r := Final(s, moves); r.procs[m.who].refresh == r.world.valid
    ensures !m.step.Refused?
  {
    RunNoneDirty(s, moves);
    MoveNoneDirty(Final(s, moves), m);
  }

  /** A run without loss that got here. */
  ghost predicate Reaches(s: System, moves: seq<Move>, r: System) {
    IsRun(s, moves) && !HasLoss(s, moves) && Final(s, moves) == r
  }

  lemma ReachesMore(s: System, moves: seq<Move>, r: System, m: Move)
    requires Reaches(s, moves, r) && CanMove(r, m) && !IsLoss(r, m)
    ensures Reaches(s, moves + [m], Moved(r, m))
  {
    var more := moves + [m];
    assert more[..|moves|] == moves;
    forall i | 0 <= i < |more| ensures CanMove(Final(s, more[..i]), more[i]) {
      assert i < |moves| ==> more[..i] == moves[..i];
    }
    LossBefore(s, more);
  }

  /** What one process does with nobody in between is a stretch of a run. */
  lemma {:induction false} ReachesAlone(s: System, moves: seq<Move>, r: System, who: nat, steps: seq<Step>, q: Proc, v: World)
    returns (more: seq<Move>)
    requires Reaches(s, moves, r) && who < |r.procs| && Leads(r.procs[who], r.world, who, steps, q, v)
    requires forall e | e in steps :: !e.ResponseLost? && !e.Crash?
    ensures Reaches(s, more, System(v, r.procs[who := q]))
    ensures forall m | m in more :: m in moves || m.step in steps
    decreases |steps|
  {
    if steps == [] {
      more := moves;
      assert r.procs[who := q] == r.procs;
    } else {
      assert steps[0] in steps;
      var m := Move(who, steps[0]);
      ReachesMore(s, moves, r, m);
      more := ReachesAlone(s, moves + [m], Moved(r, m), who, steps[1..], q, v);
      assert Moved(r, m).procs[who := q] == r.procs[who := q];
    }
  }
}
