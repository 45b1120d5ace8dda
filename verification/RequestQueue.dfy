/** The network request lists as values, and what every interleaving of their
    users keeps: many callers that add, one worker that takes the oldest request
    and puts it back, waiters that claim their own, and a cancel at any time
    (src/bx_net.c:391-460, src/bx_net.c:826-890). */
module RequestQueue {
  import opened MachineIntegers

  /** A request as its waiter sees it. */
  datatype Ticket = Ticket(id: uint64, done: bool, cancel: bool)

  /** The newest pending request comes first. */
  datatype Lists = Lists(nextId: uint64, pending: seq<Ticket>, finished: seq<Ticket>)

  /** The counter is 64 bits wide and wraps. */
  function NextId(id: uint64): uint64 {
    if id == UINT64_MAX then 0 else id + 1
  }

  function Added(l: Lists): Lists {
    var id := NextId(l.nextId);
    l.(nextId := id, pending := [Ticket(id, false, false)] + l.pending)
  }

  function Taken(l: Lists): Lists
    requires l.pending != []
  {
    l.(pending := l.pending[..|l.pending| - 1])
  }

  function Oldest(l: Lists): Ticket
    requires l.pending != []
  {
    l.pending[|l.pending| - 1]
  }

  function Returned(l: Lists, t: Ticket): Lists {
    l.(finished := [t] + l.finished)
  }

  predicate IsFirst(tickets: seq<Ticket>, i: nat, id: uint64) {
    i < |tickets| && tickets[i].id == id && forall j | 0 <= j < i :: tickets[j].id != id
  }

  function Without<T>(s: seq<T>, i: nat): seq<T>
    requires i < |s|
  {
    s[..i] + s[i + 1..]
  }

  function CancelAll(tickets: seq<Ticket>): seq<Ticket> {
    seq(|tickets|, i requires 0 <= i < |tickets| => tickets[i].(cancel := true))
  }

  function Cancelled(l: Lists): Lists {
    l.(pending := [], finished := l.finished + CancelAll(l.pending))
  }

  // ---- everybody's steps

  /** The lists, the request the worker holds, what the waiters have claimed and
      the ids the worker served, in order. */
  datatype Queue = Queue(lists: Lists, inHand: seq<Ticket>, claimed: seq<Ticket>, served: seq<uint64>)

  datatype Step = Add | Take | PutBack(failed: bool) | Claim(at: nat, id: uint64) | Cancel

  const EMPTY := Queue(Lists(0, [], []), [], [], [])

  predicate Enabled(q: Queue, e: Step) {
    match e
    case Add => true
    case Take => q.lists.pending != [] && q.inHand == []
    case PutBack(_) => q.inHand != []
    case Claim(at, id) => IsFirst(q.lists.finished, at, id)
    case Cancel => true
  }

  function Next(q: Queue, e: Step): Queue
    requires Enabled(q, e)
  {
    match e
    case Add => q.(lists := Added(q.lists))
    case Take =>
      var t := Oldest(q.lists);
      q.(lists := Taken(q.lists), inHand := [t], served := q.served + [t.id])
    case PutBack(failed) =>
      q.(lists := Returned(q.lists, q.inHand[0].(done := true, cancel := failed)), inHand := q.inHand[1..])
    case Claim(at, id) =>
      q.(lists := q.lists.(finished := Without(q.lists.finished, at)),
         claimed := q.claimed + [q.lists.finished[at]])
    case Cancel => q.(lists := Cancelled(q.lists))
  }

  function Final(steps: seq<Step>): Queue {
    if steps == [] then EMPTY
    else
      var q := Final(steps[..|steps| - 1]);
      if Enabled(q, steps[|steps| - 1]) then Next(q, steps[|steps| - 1]) else q
  }

  function Adds(steps: seq<Step>): nat {
    if steps == [] then 0
    else Adds(steps[..|steps| - 1]) + (if steps[|steps| - 1] == Add then 1 else 0)
  }

  // ---- conservation

  function Count(tickets: seq<Ticket>, id: uint64): nat {
    if tickets == [] then 0
    else Count(tickets[..|tickets| - 1], id) + (if tickets[|tickets| - 1].id == id then 1 else 0)
  }

  /** In how many places the request of that id is. */
  function Places(q: Queue, id: uint64): nat {
    Count(q.lists.pending, id) + Count(q.inHand, id) + Count(q.lists.finished, id) + Count(q.claimed, id)
  }

  lemma {:induction false} CountConcat(a: seq<Ticket>, b: seq<Ticket>, id: uint64)
    ensures Count(a + b, id) == Count(a, id) + Count(b, id)
  {
    if b == [] {
      assert a + b == a;
    } else {
      assert (a + b)[..|a + b| - 1] == a + b[..|b| - 1];
      CountConcat(a, b[..|b| - 1], id);
    }
  }

  lemma {:induction false} CountCancelled(tickets: seq<Ticket>, id: uint64)
    ensures Count(CancelAll(tickets), id) == Count(tickets, id)
  {
    if tickets == [] {
    } else {
      var init := tickets[..|tickets| - 1];
      CountCancelled(init, id);
      assert CancelAll(tickets)[..|tickets| - 1] == CancelAll(init);
    }
  }

  lemma CountOne(t: Ticket, id: uint64)
    ensures Count([t], id) == if t.id == id then 1 else 0
  {
    assert [t][..0] == [];
  }

  lemma CountWithout(tickets: seq<Ticket>, i: nat, id: uint64)
    requires i < |tickets|
    ensures Count(tickets, id) == Count(Without(tickets, i), id) + (if tickets[i].id == id then 1 else 0)
  {
    assert tickets == tickets[..i] + ([tickets[i]] + tickets[i + 1..]);
    CountConcat(tickets[..i], [tickets[i]] + tickets[i + 1..], id);
    CountConcat([tickets[i]], tickets[i + 1..], id);
    CountOne(tickets[i], id);
    CountConcat(tickets[..i], tickets[i + 1..], id);
  }

  /** An id is in exactly one place if it was issued, and nowhere if it was not. */
  predicate Conserved(q: Queue, id: uint64) {
    |q.inHand| <= 1 && Places(q, id) == if 1 <= id <= q.lists.nextId then 1 else 0
  }

  lemma NextConserves(q: Queue, e: Step, id: uint64)
    requires Conserved(q, id) && Enabled(q, e)
    requires e == Add ==> q.lists.nextId < UINT64_MAX
    ensures Conserved(Next(q, e), id)
  {
    var l := q.lists;
    match e
    case Add =>
      var t := Ticket(NextId(l.nextId), false, false);
      CountConcat([t], l.pending, id);
      CountOne(t, id);
    case Take =>
      CountOne(Oldest(l), id);
    case PutBack(failed) =>
      var t := q.inHand[0].(done := true, cancel := failed);
      CountConcat([t], l.finished, id);
      CountOne(t, id);
      assert q.inHand == [q.inHand[0]];
      CountOne(q.inHand[0], id);
    case Claim(at, _) =>
      CountWithout(l.finished, at, id);
      CountConcat(q.claimed, [l.finished[at]], id);
      CountOne(l.finished[at], id);
    case Cancel =>
      CountConcat(l.finished, CancelAll(l.pending), id);
      CountCancelled(l.pending, id);
  }

  /** A cancel puts the pending requests behind the finished ones, in their order. */
  lemma CancelKeepsOrder(l: Lists)
    ensures var r := Cancelled(l);
            && r.pending == [] && r.nextId == l.nextId && |r.finished| == |l.finished| + |l.pending|
            && (forall i | 0 <= i < |l.finished| :: r.finished[i] == l.finished[i])
            && forall i | 0 <= i < |l.pending| ::
                 r.finished[|l.finished| + i] == Ticket(l.pending[i].id, l.pending[i].done, true)
  {
  }

  // ---- order

  /** The pending requests are the newest, in falling order of id. */
  ghost predicate PendingFalls(q: Queue) {
    && (forall i, j | 0 <= i < j < |q.lists.pending| :: q.lists.pending[j].id < q.lists.pending[i].id)
    && (forall i | 0 <= i < |q.lists.pending| :: q.lists.pending[i].id <= q.lists.nextId)
  }

  /** What the worker served rises, and stays below what is pending. */
  ghost predicate ServedRises(q: Queue) {
    && (forall i, j | 0 <= i < j < |q.served| :: q.served[i] < q.served[j])
    && (forall i | 0 <= i < |q.served| :: q.served[i] <= q.lists.nextId)
    && (forall i, j | 0 <= i < |q.served| && 0 <= j < |q.lists.pending| :: q.served[i] < q.lists.pending[j].id)
  }

  lemma NextFalls(q: Queue, e: Step)
    requires PendingFalls(q) && Enabled(q, e)
    requires e == Add ==> q.lists.nextId < UINT64_MAX
    ensures PendingFalls(Next(q, e))
  {
  }

  lemma NextRises(q: Queue, e: Step)
    requires PendingFalls(q) && ServedRises(q) && Enabled(q, e)
    requires e == Add ==> q.lists.nextId < UINT64_MAX
    ensures ServedRises(Next(q, e))
  {
    if e.Take? {
      assert forall j | 0 <= j < |q.lists.pending| - 1 :: Oldest(q.lists).id < q.lists.pending[j].id;
    }
  }

  /** A waiter is never told nothing: what is finished was answered or cancelled,
      what is pending is neither. */
  ghost predicate Settled(q: Queue) {
    && (forall i | 0 <= i < |q.lists.pending| :: !q.lists.pending[i].done && !q.lists.pending[i].cancel)
    && (forall i | 0 <= i < |q.lists.finished| :: q.lists.finished[i].done || q.lists.finished[i].cancel)
    && (forall i | 0 <= i < |q.claimed| :: q.claimed[i].done || q.claimed[i].cancel)
  }

  lemma NextSettles(q: Queue, e: Step)
    requires Settled(q) && Enabled(q, e)
    ensures Settled(Next(q, e))
  {
  }

  lemma {:induction false} RunKeeps(steps: seq<Step>, id: uint64)
    requires Adds(steps) <= UINT64_MAX as int
    ensures var q := Final(steps);
            q.lists.nextId as int <= Adds(steps) && Conserved(q, id) && PendingFalls(q) && ServedRises(q) && Settled(q)
  {
    if steps == [] {
    } else {
      var init, e := steps[..|steps| - 1], steps[|steps| - 1];
      RunKeeps(init, id);
      var q := Final(init);
      if Enabled(q, e) {
        NextConserves(q, e, id);
        NextRises(q, e);
        NextFalls(q, e);
        NextSettles(q, e);
      }
    }
  }

  /** In every interleaving of fewer than 2^64 adds: a request is in exactly one
      of the pending list, the worker's hand, the finished list and the claimed
      ones; the worker serves rising ids, oldest first. */
  lemma EachRequestInOnePlace(steps: seq<Step>, id: uint64)
    requires Adds(steps) <= UINT64_MAX as int
    ensures var q := Final(steps);
            && Places(q, id) == (if 1 <= id <= q.lists.nextId then 1 else 0)
            && (forall i, j | 0 <= i < j < |q.served| :: q.served[i] < q.served[j])
            && (forall i, j | 0 <= i < j < |q.lists.pending| :: q.lists.pending[j].id < q.lists.pending[i].id)
  {
    RunKeeps(steps, id);
  }

  lemma {:induction false} CountHas(tickets: seq<Ticket>, i: nat)
    requires i < |tickets|
    ensures Count(tickets, tickets[i].id) > 0
  {
    if i == |tickets| - 1 {
    } else {
      CountHas(tickets[..|tickets| - 1], i);
    }
  }

  /** A claim hands out the one request of that id, settled, and leaves the other
      finished ones in their order. */
  lemma ClaimIsOwn(steps: seq<Step>, at: nat, id: uint64)
    requires Adds(steps) <= UINT64_MAX as int && Enabled(Final(steps), Claim(at, id))
    ensures var q := Final(steps); var r := Next(q, Claim(at, id));
            && r.claimed == q.claimed + [q.lists.finished[at]]
            && q.lists.finished[at].id == id
            && (q.lists.finished[at].done || q.lists.finished[at].cancel)
            && r.lists.finished == Without(q.lists.finished, at)
            && (forall i | 0 <= i < |r.lists.finished| :: r.lists.finished[i].id != id)
            && (forall i | 0 <= i < |q.claimed| :: q.claimed[i].id != id)
  {
    RunKeeps(steps, id);
    var q := Final(steps);
    CountWithout(q.lists.finished, at, id);
    var rest := Without(q.lists.finished, at);
    forall i | 0 <= i < |rest| ensures rest[i].id != id {
      CountHas(rest, i);
    }
    forall i | 0 <= i < |q.claimed| ensures q.claimed[i].id != id {
      CountHas(q.claimed, i);
    }
  }

  // ---- what became of a request

  /** The worker put the request back with this outcome. */
  ghost predicate WasPutBack(steps: seq<Step>, id: uint64, failed: bool) {
    exists i :: 0 <= i < |steps| && steps[i] == PutBack(failed) &&
                Final(steps[..i]).inHand != [] && Final(steps[..i]).inHand[0].id == id
  }

  /** The request was pending when everything was cancelled. */
  ghost predicate WasCancelled(steps: seq<Step>, id: uint64) {
    exists i, j :: 0 <= i < |steps| && steps[i] == Cancel &&
                   0 <= j < |Final(steps[..i]).lists.pending| && Final(steps[..i]).lists.pending[j].id == id
  }

  /** Answered by the worker, failed or not as the worker found; or cancelled
      while it was pending, and then not answered. */
  ghost predicate Accounted(steps: seq<Step>, t: Ticket) {
    if t.done then WasPutBack(steps, t.id, t.cancel) else t.cancel && WasCancelled(steps, t.id)
  }

  ghost predicate AllAccounted(steps: seq<Step>, tickets: seq<Ticket>) {
    forall i | 0 <= i < |tickets| :: Accounted(steps, tickets[i])
  }

  lemma AccountedStays(steps: seq<Step>, e: Step, t: Ticket)
    requires Accounted(steps, t)
    ensures Accounted(steps + [e], t)
  {
    var more := steps + [e];
    assert forall i | 0 <= i < |steps| :: more[i] == steps[i] && more[..i] == steps[..i];
    if t.done {
      var i :| 0 <= i < |steps| && steps[i] == PutBack(t.cancel) &&
        Final(steps[..i]).inHand != [] && Final(steps[..i]).inHand[0].id == t.id;
      assert more[i] == PutBack(t.cancel) && Final(more[..i]).inHand[0].id == t.id;
    } else {
      var i, j :| 0 <= i < |steps| && steps[i] == Cancel &&
        0 <= j < |Final(steps[..i]).lists.pending| && Final(steps[..i]).lists.pending[j].id == t.id;
      assert more[i] == Cancel && Final(more[..i]).lists.pending[j].id == t.id;
    }
  }

  lemma PutBackAccounted(steps: seq<Step>, failed: bool)
    requires Final(steps).inHand != []
    ensures Accounted(steps + [PutBack(failed)], Final(steps).inHand[0].(done := true, cancel := failed))
  {
    var more := steps + [PutBack(failed)];
    assert more[..|steps|] == steps && more[|steps|] == PutBack(failed);
  }

  lemma CancelAccounted(steps: seq<Step>, j: nat)
    requires j < |Final(steps).lists.pending|
    ensures Accounted(steps + [Cancel], Final(steps).lists.pending[j].(done := false, cancel := true))
  {
    var more := steps + [Cancel];
    assert more[..|steps|] == steps && more[|steps|] == Cancel;
  }

  ghost predicate QueueAccounted(steps: seq<Step>, q: Queue) {
    && AllAccounted(steps, q.lists.finished) && AllAccounted(steps, q.claimed)
    && forall i | 0 <= i < |q.lists.pending| :: !q.lists.pending[i].done
  }

  lemma NextAccounted(steps: seq<Step>, e: Step)
    requires QueueAccounted(steps, Final(steps)) && Enabled(Final(steps), e)
    ensures QueueAccounted(steps + [e], Next(Final(steps), e))
  {
    var q := Final(steps);
    forall t | Accounted(steps, t) ensures Accounted(steps + [e], t) {
      AccountedStays(steps, e, t);
    }
    match e
    case Add =>
    case Take =>
    case PutBack(failed) => PutBackAccounted(steps, failed);
    case Claim(_, _) =>
    case Cancel =>
      forall j | 0 <= j < |q.lists.pending| ensures Accounted(steps + [e], CancelAll(q.lists.pending)[j]) {
        CancelAccounted(steps, j);
        assert q.lists.pending[j].(done := false, cancel := true) == CancelAll(q.lists.pending)[j];
      }
  }

  lemma AccountedSkip(steps: seq<Step>, e: Step, q: Queue)
    requires QueueAccounted(steps, q)
    ensures QueueAccounted(steps + [e], q)
  {
    forall t | Accounted(steps, t) ensures Accounted(steps + [e], t) {
      AccountedStays(steps, e, t);
    }
  }

  /** In every interleaving: what is finished or claimed was answered by the worker,
      with that outcome, or it was cancelled while pending and is not marked answered. */
  lemma {:induction false} EveryOutcomeIsAccounted(steps: seq<Step>)
    ensures QueueAccounted(steps, Final(steps))
  {
    if steps == [] {
    } else {
      var init, e := steps[..|steps| - 1], steps[|steps| - 1];
      EveryOutcomeIsAccounted(init);
      assert steps == init + [e];
      if Enabled(Final(init), e) {
        NextAccounted(init, e);
      } else {
        AccountedSkip(init, e, Final(init));
      }
    }
  }

  ghost predicate HandServed(q: Queue) {
    forall i | 0 <= i < |q.inHand| :: q.inHand[i].id in q.served
  }

  lemma NextServes(q: Queue, e: Step)
    requires HandServed(q) && Enabled(q, e)
    ensures HandServed(Next(q, e)) && q.served <= Next(q, e).served
  {
    if e.Take? {
      var r := Next(q, e);
      assert r.inHand == [Oldest(q.lists)] && r.served[|q.served|] == Oldest(q.lists).id;
    }
  }

  lemma PutBackBefore(init: seq<Step>, e: Step, id: uint64, failed: bool)
    requires WasPutBack(init + [e], id, failed)
    ensures WasPutBack(init, id, failed) || (Final(init).inHand != [] && Final(init).inHand[0].id == id)
  {
    var steps := init + [e];
    var i :| 0 <= i < |steps| && steps[i] == PutBack(failed) &&
      Final(steps[..i]).inHand != [] && Final(steps[..i]).inHand[0].id == id;
    if i < |init| {
      assert init[i] == steps[i] && init[..i] == steps[..i];
    } else {
      assert steps[..i] == init;
    }
  }

  lemma {:induction false} PutBackWasServed(steps: seq<Step>, id: uint64, failed: bool)
    ensures HandServed(Final(steps)) && (WasPutBack(steps, id, failed) ==> id in Final(steps).served)
  {
    if steps == [] {
    } else {
      var init, e := steps[..|steps| - 1], steps[|steps| - 1];
      PutBackWasServed(init, id, failed);
      assert steps == init + [e];
      if Enabled(Final(init), e) {
        NextServes(Final(init), e);
      }
      if WasPutBack(steps, id, failed) {
        PutBackBefore(init, e, id, failed);
        assert id in Final(init).served;
      }
    }
  }

  /** A claim tells its waiter the truth: answered means that the worker took the
      request and put it back with that outcome; not answered, that it was
      cancelled before the worker took it. */
  lemma ClaimIsTrue(steps: seq<Step>, at: nat, id: uint64)
    requires Enabled(Final(steps), Claim(at, id))
    ensures var t := Final(steps).lists.finished[at];
            && (t.done ==> t.id in Final(steps).served && WasPutBack(steps, id, t.cancel))
            && (!t.done ==> t.cancel && WasCancelled(steps, id))
  {
    EveryOutcomeIsAccounted(steps);
    PutBackWasServed(steps, id, Final(steps).lists.finished[at].cancel);
  }
}
