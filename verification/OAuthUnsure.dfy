/** A COMMIT that succeeds but is reported failed undoes a later grant, although
    the server rotates every refresh token and nothing is lost
    (src/bx_oauth.c:266-277, 290-302). */
module OAuthUnsure {
  import opened OAuth
  import opened OAuthRuns

  const IDLE := Proc("", "r0", 0, false, Idle)
  const TAKEN := Proc("a1", "r1", 300, false, Done(true))
  const DIRTY := TAKEN.(dirty := true)
  const SERVED := Proc("a2", "r2", 300, false, Done(true))
  const FIRST := Triple("a1", "r1", 300)
  const SECOND := Triple("a2", "r2", 300)
  const W0 := World(Triple("", "r0", 0), "r0", {"r0"}, FREE)
  const W1 := World(FIRST, "r1", {"r0", "a1", "r1"}, FREE)
  const W2 := World(SECOND, "r2", {"r0", "a1", "r1", "a2", "r2"}, FREE)

  predicate IsQuiet(e: Step) {
    !e.ResponseLost? && !e.Crash? && (e.Granted? ==> Present(e.refresh))
  }

  /** Is granted new tokens, saves them, and is told that it did not. */
  lemma Unsure() returns (steps: seq<Step>)
    ensures Leads(IDLE.(pc := Refreshing), Held(W0, 0), 0, steps, TAKEN.(pc := Writing(true, 1)), Held(W1, 0))
    ensures forall e | e in steps :: IsQuiet(e)
  {
    var p, u, w := IDLE.(pc := Refreshing), Held(W0, 0), Held(W1, 0);
    var g, issued := TAKEN.(pc := Writing(true, 0)), w.(row := W0.row);
    steps := [Granted("a1", "r1", 300, 0)];
    assert Issue(u, "a1", "r1").issued == issued.issued;
    LeadsOnce(p, u, 0, Granted("a1", "r1", 300, 0), g, issued);
    LeadsNext(p, u, 0, steps, g, issued, CommitUnsure, g.(pc := Writing(true, 1)), w);
    steps := steps + [CommitUnsure];
  }

  /** Tries in vain to save them again. */
  lemma GivesUp() returns (steps: seq<Step>)
    ensures Leads(IDLE.(pc := Refreshing), Held(W0, 0), 0, steps, DIRTY.(pc := Unsaved), Held(W1, 0))
    ensures forall e | e in steps :: IsQuiet(e)
  {
    var p, u, w, g := IDLE.(pc := Refreshing), Held(W0, 0), Held(W1, 0), TAKEN;
    steps := Unsure();
    LeadsNext(p, u, 0, steps, g.(pc := Writing(true, 1)), w, CommitFailed, g.(pc := Writing(true, 2)), w);
    steps := steps + [CommitFailed];
    LeadsNext(p, u, 0, steps, g.(pc := Writing(true, 2)), w, CommitFailed, DIRTY.(pc := Unsaved), w);
    steps := steps + [CommitFailed];
  }

  /** Finds that it must post. */
  lemma FirstPosts() returns (steps: seq<Step>)
    ensures Leads(IDLE, W0, 0, steps, IDLE.(pc := Refreshing), Held(W0, 0))
    ensures forall e | e in steps :: IsQuiet(e)
  {
    steps := [Begin(false, 0)];
    LeadsOnce(IDLE, W0, 0, Begin(false, 0), IDLE.(pc := Waiting(false, "")), W0);
    LeadsNext(IDLE, W0, 0, steps, IDLE.(pc := Waiting(false, "")), W0, LockTaken, IDLE.(pc := Locked(false, "")), Held(W0, 0));
    steps := steps + [LockTaken];
    LeadsNext(IDLE, W0, 0, steps, IDLE.(pc := Locked(false, "")), Held(W0, 0), Read(0), IDLE.(pc := Refreshing), Held(W0, 0));
    steps := steps + [Read(0)];
  }

  /** Goes on with what was saved after all. */
  lemma FirstServed() returns (steps: seq<Step>)
    ensures Leads(IDLE.(pc := Refreshing), Held(W0, 0), 0, steps, DIRTY, W1)
    ensures forall e | e in steps :: IsQuiet(e)
  {
    var p, u, w := IDLE.(pc := Refreshing), Held(W0, 0), Held(W1, 0);
    steps := GivesUp();
    LeadsNext(p, u, 0, steps, DIRTY.(pc := Unsaved), w, Judge(0), DIRTY.(pc := Leaving(true)), w);
    steps := steps + [Judge(0)];
    LeadsNext(p, u, 0, steps, DIRTY.(pc := Leaving(true)), w, Unlock, DIRTY, W1);
    steps := steps + [Unlock];
  }

  /** Takes up what the row has. */
  lemma SecondTakes() returns (steps: seq<Step>)
    ensures Leads(IDLE, W1, 1, steps, TAKEN, W1)
    ensures forall e | e in steps :: IsQuiet(e)
  {
    var w := Held(W1, 1);
    steps := [Begin(false, 0)];
    LeadsOnce(IDLE, W1, 1, Begin(false, 0), IDLE.(pc := Waiting(false, "")), W1);
    LeadsNext(IDLE, W1, 1, steps, IDLE.(pc := Waiting(false, "")), W1, LockTaken, IDLE.(pc := Locked(false, "")), w);
    steps := steps + [LockTaken];
    LeadsNext(IDLE, W1, 1, steps, IDLE.(pc := Locked(false, "")), w, Read(0), TAKEN.(pc := Leaving(true)), w);
    steps := steps + [Read(0)];
    LeadsNext(IDLE, W1, 1, steps, TAKEN.(pc := Leaving(true)), w, Unlock, TAKEN, W1);
    steps := steps + [Unlock];
  }

  /** Has its access token rejected and must post. */
  lemma SecondPosts() returns (steps: seq<Step>)
    ensures Leads(TAKEN, W1, 1, steps, TAKEN.(pc := Refreshing), Held(W1, 1))
    ensures forall e | e in steps :: IsQuiet(e)
  {
    var w := Held(W1, 1);
    steps := [Begin(true, 0)];
    LeadsOnce(TAKEN, W1, 1, Begin(true, 0), TAKEN.(pc := Waiting(true, "a1")), W1);
    LeadsNext(TAKEN, W1, 1, steps, TAKEN.(pc := Waiting(true, "a1")), W1, LockTaken, TAKEN.(pc := Locked(true, "a1")), w);
    steps := steps + [LockTaken];
    LeadsNext(TAKEN, W1, 1, steps, TAKEN.(pc := Locked(true, "a1")), w, Read(0), TAKEN.(pc := Refreshing), w);
    steps := steps + [Read(0)];
  }

  /** Gets new tokens and saves them. */
  lemma SecondRenews() returns (steps: seq<Step>)
    ensures Leads(TAKEN.(pc := Refreshing), Held(W1, 1), 1, steps, SERVED, W2)
    ensures forall e | e in steps :: IsQuiet(e)
  {
    var p, w, v := TAKEN.(pc := Refreshing), Held(W1, 1), Held(W2, 1);
    assert Issue(w, "a2", "r2").issued == v.issued;
    steps := [Granted("a2", "r2", 300, 0)];
    LeadsOnce(p, w, 1, Granted("a2", "r2", 300, 0), SERVED.(pc := Writing(true, 0)), v.(row := FIRST));
    LeadsNext(p, w, 1, steps, SERVED.(pc := Writing(true, 0)), v.(row := FIRST), Committed, SERVED.(pc := Leaving(true)), v);
    steps := steps + [Committed];
    LeadsNext(p, w, 1, steps, SERVED.(pc := Leaving(true)), v, Unlock, SERVED, W2);
    steps := steps + [Unlock];
  }

  /** Saves again what by then is spent. */
  lemma SavesAgain() returns (steps: seq<Step>)
    ensures Leads(DIRTY, W2, 0, steps, TAKEN.(pc := Leaving(true)), Held(W2, 0).(row := FIRST))
    ensures forall e | e in steps :: IsQuiet(e)
  {
    var w := Held(W2, 0);
    steps := [Begin(false, 0)];
    LeadsOnce(DIRTY, W2, 0, Begin(false, 0), DIRTY.(pc := Waiting(false, "a1")), W2);
    LeadsNext(DIRTY, W2, 0, steps, DIRTY.(pc := Waiting(false, "a1")), W2, LockTaken, DIRTY.(pc := Locked(false, "a1")), w);
    steps := steps + [LockTaken];
    LeadsNext(DIRTY, W2, 0, steps, DIRTY.(pc := Locked(false, "a1")), w, Enter(0), DIRTY.(pc := Writing(false, 0)), w);
    steps := steps + [Enter(0)];
    LeadsNext(DIRTY, W2, 0, steps, DIRTY.(pc := Writing(false, 0)), w, Committed, TAKEN.(pc := Leaving(true)), w.(row := FIRST));
    steps := steps + [Committed];
  }

  const S0 := System(W0, [IDLE, IDLE])
  const S1 := System(W1, [DIRTY, IDLE])
  const S2 := System(W2, [DIRTY, SERVED])
  const S3 := System(Held(W2, 0).(row := FIRST), [TAKEN.(pc := Leaving(true)), SERVED])

  ghost predicate QuietRun(moves: seq<Move>, r: System) {
    Reaches(S0, moves, r) && forall m | m in moves :: IsQuiet(m.step)
  }

  /** One process's stretch, added to a run so far. */
  lemma Goes(moves: seq<Move>, r: System, who: nat, steps: seq<Step>, q: Proc, v: World, after: System) returns (more: seq<Move>)
    requires QuietRun(moves, r) && who < |r.procs|
    requires Leads(r.procs[who], r.world, who, steps, q, v) && (forall e | e in steps :: IsQuiet(e))
    requires after == System(v, r.procs[who := q])
    ensures QuietRun(more, after)
  {
    more := ReachesAlone(S0, moves, r, who, steps, q, v);
  }

  lemma FirstGoes() returns (moves: seq<Move>)
    ensures QuietRun(moves, S1)
  {
    var posting := System(Held(W0, 0), [IDLE.(pc := Refreshing), IDLE]);
    var steps := FirstPosts();
    moves := Goes([], S0, 0, steps, IDLE.(pc := Refreshing), Held(W0, 0), posting);
    steps := FirstServed();
    moves := Goes(moves, posting, 0, steps, DIRTY, W1, S1);
  }

  const TAKING := System(W1, [DIRTY, TAKEN])
  const POSTING := System(Held(W1, 1), [DIRTY, TAKEN.(pc := Refreshing)])

  lemma SecondTakesRow(moves: seq<Move>) returns (more: seq<Move>)
    requires QuietRun(moves, S1)
    ensures QuietRun(more, TAKING)
  {
    var steps := SecondTakes();
    more := Goes(moves, S1, 1, steps, TAKEN, W1, TAKING);
  }

  lemma SecondMustPost(moves: seq<Move>) returns (more: seq<Move>)
    requires QuietRun(moves, TAKING)
    ensures QuietRun(more, POSTING)
  {
    var steps := SecondPosts();
    more := Goes(moves, TAKING, 1, steps, TAKEN.(pc := Refreshing), Held(W1, 1), POSTING);
  }

  lemma SecondSaves(moves: seq<Move>) returns (more: seq<Move>)
    requires QuietRun(moves, POSTING)
    ensures QuietRun(more, S2)
  {
    var steps := SecondRenews();
    more := Goes(moves, POSTING, 1, steps, SERVED, W2, S2);
  }

  lemma FirstGoesAgain(moves: seq<Move>) returns (more: seq<Move>)
    requires QuietRun(moves, S2)
    ensures QuietRun(more, S3)
  {
    var steps := SavesAgain();
    more := Goes(moves, S2, 0, steps, TAKEN.(pc := Leaving(true)), Held(W2, 0).(row := FIRST), S3);
  }

  lemma BeginsRested()
    ensures Rested(S0)
  {
  }

  lemma EndsUndone()
    ensures S3.world.row.refresh != S3.world.valid && !Located(S3)
  {
    assert "r1"[1] != "r2"[1];
  }

  /** With every refresh token rotated and nothing lost, one commit that was
      reported failed although it succeeded, and two that failed, can put a spent
      refresh token into the row: the first process overwrites what the second
      one saved. */
  lemma {:induction false} UnsureGrantUndone() returns (s: System, moves: seq<Move>)
    ensures Rested(s) && IsRun(s, moves) && !HasLoss(s, moves)
    ensures forall m | m in moves && m.step.Granted? :: Present(m.step.refresh)
    ensures var r := Final(s, moves); Present(r.world.valid) && r.world.row.refresh != r.world.valid && !Located(r)
  {
    s := S0;
    moves := FirstGoes();
    moves := SecondTakesRow(moves);
    moves := SecondMustPost(moves);
    moves := SecondSaves(moves);
    moves := FirstGoesAgain(moves);
    BeginsRested();
    EndsUndone();
  }
}
