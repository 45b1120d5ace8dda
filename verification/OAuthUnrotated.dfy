/** The server must rotate the refresh token: otherwise a grant can be undone
    without any loss. The code keeps its old refresh token when the answer
    brings no new one (src/bx_oauth.c:519-524). */
module OAuthUnrotated {
  import opened OAuth
  import opened OAuthRuns

  const EMPTY_ROW := Triple("", "r0", 0)
  const SPENT := Triple("a0", "r0", 300)
  const W0 := World(EMPTY_ROW, "r0", {"r0"}, FREE)
  const W1 := W0.(issued := {"r0", "a0"})
  const W2 := World(Triple("a1", "r1", 300), "r1", {"r0", "a0", "a1", "r1"}, FREE)
  const IDLE := Proc("", "r0", 0, false, Idle)
  const DIRTY := Proc("a0", "r0", 300, true, Done(true))
  const SERVED := Proc("a1", "r1", 300, false, Done(true))

  /** Gets the lock and finds that it must post. */
  lemma MustPost(me: int, w: World)
    requires w.row == EMPTY_ROW && w.holder == FREE
    ensures Leads(IDLE, w, me, [Begin(false, 0), LockTaken, Read(0)], IDLE.(pc := Refreshing), Held(w, me))
  {
    var steps := [Begin(false, 0)];
    LeadsOnce(IDLE, w, me, Begin(false, 0), IDLE.(pc := Waiting(false, "")), w);
    LeadsNext(IDLE, w, me, steps, IDLE.(pc := Waiting(false, "")), w, LockTaken, IDLE.(pc := Locked(false, "")), Held(w, me));
    LeadsNext(IDLE, w, me, steps + [LockTaken], IDLE.(pc := Locked(false, "")), Held(w, me), Read(0),
              IDLE.(pc := Refreshing), Held(w, me));
    assert steps + [LockTaken] + [Read(0)] == [Begin(false, 0), LockTaken, Read(0)];
  }

  /** Is granted an access token, keeps its refresh token and cannot save. */
  lemma CannotSave() returns (steps: seq<Step>)
    ensures Leads(IDLE.(pc := Refreshing), Held(W0, 0), 0, steps, DIRTY.(pc := Unsaved), Held(W1, 0))
    ensures forall e | e in steps :: !e.ResponseLost? && !e.Crash?
  {
    var p, w := IDLE.(pc := Refreshing), Held(W1, 0);
    var g := Proc("a0", "r0", 300, false, Writing(true, 0));
    steps := [Granted("a0", "", 300, 0)];
    assert Issue(Held(W0, 0), "a0", "").issued == w.issued;
    LeadsOnce(p, Held(W0, 0), 0, Granted("a0", "", 300, 0), g, w);
    LeadsNext(p, Held(W0, 0), 0, steps, g, w, CommitFailed, g.(pc := Writing(true, 1)), w);
    steps := steps + [CommitFailed];
    LeadsNext(p, Held(W0, 0), 0, steps, g.(pc := Writing(true, 1)), w, CommitFailed, g.(pc := Writing(true, 2)), w);
    steps := steps + [CommitFailed];
    LeadsNext(p, Held(W0, 0), 0, steps, g.(pc := Writing(true, 2)), w, CommitFailed, DIRTY.(pc := Unsaved), w);
    steps := steps + [CommitFailed];
  }

  /** Goes on with what it could not save. */
  lemma GoesOn() returns (steps: seq<Step>)
    ensures Leads(IDLE.(pc := Refreshing), Held(W0, 0), 0, steps, DIRTY, W1)
    ensures forall e | e in steps :: !e.ResponseLost? && !e.Crash?
  {
    var p, w := IDLE.(pc := Refreshing), Held(W1, 0);
    steps := CannotSave();
    LeadsNext(p, Held(W0, 0), 0, steps, DIRTY.(pc := Unsaved), w, Judge(0), DIRTY.(pc := Leaving(true)), w);
    steps := steps + [Judge(0)];
    LeadsNext(p, Held(W0, 0), 0, steps, DIRTY.(pc := Leaving(true)), w, Unlock, DIRTY, W1);
    steps := steps + [Unlock];
  }

  /** Posts the same refresh token, is granted a new pair and saves it. */
  lemma CanSave() returns (steps: seq<Step>)
    ensures Leads(IDLE.(pc := Refreshing), Held(W1, 1), 1, steps, SERVED, W2)
    ensures forall e | e in steps :: !e.ResponseLost? && !e.Crash?
  {
    var p, w := IDLE.(pc := Refreshing), Held(W2, 1).(row := EMPTY_ROW);
    steps := [Granted("a1", "r1", 300, 0)];
    assert Issue(Held(W1, 1), "a1", "r1").issued == w.issued;
    LeadsOnce(p, Held(W1, 1), 1, Granted("a1", "r1", 300, 0), SERVED.(pc := Writing(true, 0)), w);
    LeadsNext(p, Held(W1, 1), 1, steps, SERVED.(pc := Writing(true, 0)), w, Committed, SERVED.(pc := Leaving(true)), Held(W2, 1));
    steps := steps + [Committed];
    LeadsNext(p, Held(W1, 1), 1, steps, SERVED.(pc := Leaving(true)), Held(W2, 1), Unlock, SERVED, W2);
    steps := steps + [Unlock];
  }

  /** Saves at last what by then is spent. */
  lemma SavesLate() returns (steps: seq<Step>)
    ensures Leads(DIRTY, W2, 0, steps, DIRTY.(dirty := false, pc := Leaving(true)), Held(W2, 0).(row := SPENT))
    ensures forall e | e in steps :: !e.ResponseLost? && !e.Crash?
  {
    var w := Held(W2, 0);
    steps := [Begin(false, 0)];
    LeadsOnce(DIRTY, W2, 0, Begin(false, 0), DIRTY.(pc := Waiting(false, "a0")), W2);
    LeadsNext(DIRTY, W2, 0, steps, DIRTY.(pc := Waiting(false, "a0")), W2, LockTaken, DIRTY.(pc := Locked(false, "a0")), w);
    steps := steps + [LockTaken];
    LeadsNext(DIRTY, W2, 0, steps, DIRTY.(pc := Locked(false, "a0")), w, Enter(0), DIRTY.(pc := Writing(false, 0)), w);
    steps := steps + [Enter(0)];
    LeadsNext(DIRTY, W2, 0, steps, DIRTY.(pc := Writing(false, 0)), w, Committed,
              DIRTY.(dirty := false, pc := Leaving(true)), w.(row := SPENT));
    steps := steps + [Committed];
  }

  /** The first process gets as far as unsaved tokens. */
  lemma FirstUnsaved() returns (moves: seq<Move>)
    ensures Reaches(System(W0, [IDLE, IDLE]), moves, System(W1, [DIRTY, IDLE]))
  {
    var s := System(W0, [IDLE, IDLE]);
    MustPost(0, W0);
    moves := ReachesAlone(s, [], s, 0, [Begin(false, 0), LockTaken, Read(0)], IDLE.(pc := Refreshing), Held(W0, 0));
    var r := System(Held(W0, 0), [IDLE.(pc := Refreshing), IDLE]);
    assert s.procs[0 := IDLE.(pc := Refreshing)] == r.procs;
    var steps := GoesOn();
    moves := ReachesAlone(s, moves, r, 0, steps, DIRTY, W1);
    assert r.procs[0 := DIRTY] == [DIRTY, IDLE];
  }

  /** The second process posts the same refresh token and saves a new pair. */
  lemma SecondSaved(moves: seq<Move>) returns (more: seq<Move>)
    requires Reaches(System(W0, [IDLE, IDLE]), moves, System(W1, [DIRTY, IDLE]))
    ensures Reaches(System(W0, [IDLE, IDLE]), more, System(W2, [DIRTY, SERVED]))
  {
    var s, q := System(W0, [IDLE, IDLE]), System(W1, [DIRTY, IDLE]);
    MustPost(1, W1);
    more := ReachesAlone(s, moves, q, 1, [Begin(false, 0), LockTaken, Read(0)], IDLE.(pc := Refreshing), Held(W1, 1));
    var r := System(Held(W1, 1), [DIRTY, IDLE.(pc := Refreshing)]);
    assert q.procs[1 := IDLE.(pc := Refreshing)] == r.procs;
    var steps := CanSave();
    more := ReachesAlone(s, more, r, 1, steps, SERVED, W2);
    assert r.procs[1 := SERVED] == [DIRTY, SERVED];
  }

  lemma LateSave(moves: seq<Move>) returns (more: seq<Move>)
    requires Reaches(System(W0, [IDLE, IDLE]), moves, System(W2, [DIRTY, SERVED]))
    ensures Reaches(System(W0, [IDLE, IDLE]), more,
                    System(Held(W2, 0).(row := SPENT), [DIRTY.(dirty := false, pc := Leaving(true)), SERVED]))
  {
    var s, r, q := System(W0, [IDLE, IDLE]), System(W2, [DIRTY, SERVED]), DIRTY.(dirty := false, pc := Leaving(true));
    var steps := SavesLate();
    more := ReachesAlone(s, moves, r, 0, steps, q, Held(W2, 0).(row := SPENT));
    assert r.procs[0 := q] == [q, SERVED];
  }

  const START := System(W0, [IDLE, IDLE])
  const UNDONE := System(Held(W2, 0).(row := SPENT), [DIRTY.(dirty := false, pc := Leaving(true)), SERVED])

  lemma BeginsRested()
    ensures Rested(START)
  {
  }

  lemma EndsUndone()
    ensures UNDONE.world.row.refresh != UNDONE.world.valid && !Located(UNDONE)
  {
    assert "r0"[1] != "r1"[1];
  }

  /** If the server may leave the refresh token as it is, failed commits alone can
      put a spent refresh token into the row: the first process overwrites what
      the second one saved. */
  lemma {:induction false} UnrotatedGrantUndone() returns (s: System, moves: seq<Move>)
    ensures Rested(s) && IsRun(s, moves) && !HasLoss(s, moves)
    ensures var r := Final(s, moves); Present(r.world.valid) && r.world.row.refresh != r.world.valid && !Located(r)
  {
    s := START;
    moves := FirstUnsaved();
    moves := SecondSaved(moves);
    moves := LateSave(moves);
    BeginsRested();
    EndsUndone();
  }
}
