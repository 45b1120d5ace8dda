/** The two linked lists of requests, relinked in place (src/bx_net.c:391-460,
    src/bx_net.c:826-890). The ghost sequences name the nodes of each list. */
module RequestList {
  import opened MachineIntegers
  import opened RequestQueue

  class Request {
    var id: uint64
    var done: bool
    var cancel: bool
    var next: Request?

    constructor ()
      ensures id == 0 && !done && !cancel && next == null
    {
      id, done, cancel, next := 0, false, false, null;
    }
  }

  function At(nodes: seq<Request>, i: int): Request? {
    if 0 <= i < |nodes| then nodes[i] else null
  }

  /** head leads through exactly these nodes. */
  ghost predicate Chain(head: Request?, nodes: seq<Request>)
    reads nodes
  {
    && head == At(nodes, 0)
    && (forall i {:trigger nodes[i].next} | 0 <= i < |nodes| :: nodes[i].next == At(nodes, i + 1))
    && (forall i, j | 0 <= i < j < |nodes| :: nodes[i] != nodes[j])
  }

  lemma ChainPush(r: Request, nodes: seq<Request>)
    requires Chain(r.next, nodes) && r !in nodes
    ensures Chain(r, [r] + nodes)
    ensures Tickets([r] + nodes) == [Ticket(r.id, r.done, r.cancel)] + Tickets(nodes)
  {
    forall i | 0 <= i < |[r] + nodes| ensures ([r] + nodes)[i].next == At([r] + nodes, i + 1) {
      if i > 0 {
        assert nodes[i - 1].next == At(nodes, i);
      }
    }
  }

  ghost function Tickets(nodes: seq<Request>): seq<Ticket>
    reads nodes
  {
    seq(|nodes|, i requires 0 <= i < |nodes| reads nodes => Ticket(nodes[i].id, nodes[i].done, nodes[i].cancel))
  }

  /** Every node leads to the next, except that the one before at skips it. */
  ghost predicate Skips(nodes: seq<Request>, at: nat)
    reads nodes
  {
    && (forall i, j | 0 <= i < j < |nodes| :: nodes[i] != nodes[j])
    && forall i {:trigger nodes[i].next} | 0 <= i < |nodes| && i != at :: nodes[i].next == At(nodes, if i + 1 == at then at + 1 else i + 1)
  }

  lemma WithoutAt<T>(s: seq<T>, at: nat, i: nat)
    requires at < |s| && i < |s| - 1
    ensures |Without(s, at)| == |s| - 1 && Without(s, at)[i] == s[if i < at then i else i + 1]
  {
  }

  lemma TicketsWithout(nodes: seq<Request>, at: nat)
    requires at < |nodes|
    ensures Tickets(Without(nodes, at)) == Without(Tickets(nodes), at)
  {
    forall i | 0 <= i < |nodes| - 1
      ensures Tickets(Without(nodes, at))[i] == Without(Tickets(nodes), at)[i]
    {
      WithoutAt(nodes, at, i);
      WithoutAt(Tickets(nodes), at, i);
    }
  }

  lemma ChainSkips(nodes: seq<Request>, at: nat)
    requires at < |nodes| && Skips(nodes, at)
    ensures Chain(At(nodes, if at == 0 then 1 else 0), Without(nodes, at))
  {
    var rest := Without(nodes, at);
    forall i | 0 <= i < |rest| ensures rest[i].next == At(rest, i + 1) {
      WithoutAt(nodes, at, i);
      if i + 1 < |rest| {
        WithoutAt(nodes, at, i + 1);
      }
      var j := if i < at then i else i + 1;
      assert nodes[j].next == At(nodes, if j + 1 == at then at + 1 else j + 1);
    }
    forall i, j | 0 <= i < j < |rest| ensures rest[i] != rest[j] {
      WithoutAt(nodes, at, i);
      WithoutAt(nodes, at, j);
    }
  }

  /** A chain whose last node leads to the head of another. */
  lemma ChainConcat(nodes: seq<Request>, more: seq<Request>)
    requires nodes != [] && Chain(nodes[|nodes| - 1].next, more)
    requires forall i {:trigger nodes[i].next} | 0 <= i < |nodes| - 1 :: nodes[i].next == nodes[i + 1]
    requires forall i, j | 0 <= i < j < |nodes| :: nodes[i] != nodes[j]
    requires forall i, j | 0 <= i < |nodes| && 0 <= j < |more| :: nodes[i] != more[j]
    ensures Chain(nodes[0], nodes + more)
  {
    var all := nodes + more;
    forall i | 0 <= i < |all| ensures all[i].next == At(all, i + 1) {
      if i < |nodes| {
        assert all[i] == nodes[i];
        assert i < |nodes| - 1 ==> nodes[i].next == nodes[i + 1];
      } else {
        assert more[i - |nodes|].next == At(more, i - |nodes| + 1);
      }
    }
  }

  lemma TicketsConcat(nodes: seq<Request>, more: seq<Request>)
    ensures Tickets(nodes + more) == Tickets(nodes) + Tickets(more)
  {
  }

  class List {
    var nextId: uint64
    var pending: Request?
    var finished: Request?
    ghost var ins: seq<Request>
    ghost var outs: seq<Request>

    ghost predicate Valid()
      reads this, ins, outs
    {
      Chain(pending, ins) && Chain(finished, outs) && forall i, j | 0 <= i < |ins| && 0 <= j < |outs| :: ins[i] != outs[j]
    }

    ghost function View(): Lists
      reads this, ins, outs
    {
      Lists(nextId, Tickets(ins), Tickets(outs))
    }

    constructor ()
      ensures Valid() && View() == EMPTY.lists && ins == outs == []
    {
      nextId, pending, finished, ins, outs := 0, null, null, [], [];
    }

    /** Numbers a request and puts it in front of the pending ones. */
    method Add(request: Request) returns (id: uint64)
      requires Valid() && request !in ins && request !in outs && !request.done && !request.cancel
      modifies `nextId, `pending, `ins, request
      ensures Valid() && ins == [request] + old(ins)
      ensures View() == Added(old(View())) && id == request.id == nextId
    {
      nextId := NextId(nextId);
      request.id, request.next := nextId, pending;
      ChainPush(request, ins);
      pending, ins := request, [request] + ins;
      id := nextId;
    }

    /** Unlinks the last pending request: the oldest. */
    method Take() returns (request: Request)
      requires Valid() && pending != null
      modifies `pending, `ins, ins
      ensures Valid() && old(ins) != [] && request == old(ins[|ins| - 1])
      ensures ins == old(ins[..|ins| - 1])
      ensures View() == Taken(old(View())) && request.next == null
      ensures Ticket(request.id, request.done, request.cancel) == Oldest(old(View()))
    {
      var previous: Request? := null;
      request := pending;
      ghost var i := 0;
      while request.next != null
        invariant 0 <= i < |ins| && request == ins[i]
        invariant previous == At(ins, i - 1)
        decreases |ins| - i
      {
        assert request.next == At(ins, i + 1);
        previous, request := request, request.next;
        i := i + 1;
      }
      ins := ins[..|ins| - 1];
      if previous != null {
        previous.next := null;
      } else {
        pending := null;
      }
    }

    /** The worker's answer goes to the front of the finished list. */
    method PutBack(request: Request, failed: bool)
      requires Valid() && request !in ins && request !in outs && request.next == null
      modifies `finished, `outs, request
      ensures Valid() && outs == [request] + old(outs)
      ensures View() == Returned(old(View()), Ticket(request.id, true, failed)) && request.id == old(request.id)
    {
      request.cancel, request.done := failed, true;
      if finished == null {
        finished := request;
      } else {
        request.next := finished;
        finished := request;
      }
      ChainPush(request, outs);
      outs := [request] + outs;
    }

    /** The scan of the finished list, with the node before the one it finds. */
    method Find(id: uint64) returns (current: Request?, previous: Request?, ghost at: nat)
      requires Valid()
      ensures current == At(outs, at) && previous == At(outs, at - 1)
      ensures if current == null then forall t | t in View().finished :: t.id != id
              else IsFirst(View().finished, at, id)
    {
      current, previous, at := finished, null, 0;
      while current != null && current.id != id
        invariant 0 <= at <= |outs|
        invariant current == At(outs, at) && previous == At(outs, at - 1)
        invariant forall j | 0 <= j < at :: outs[j].id != id
        decreases |outs| - at
      {
        assert current.next == At(outs, at + 1);
        previous, current, at := current, current.next, at + 1;
      }
    }

    method Unlink(current: Request, previous: Request?, ghost at: nat)
      requires Valid() && at < |outs| && current == outs[at] && previous == At(outs, at - 1)
      modifies `finished, `outs, outs
      ensures Valid() && outs == Without(old(outs), at) && current.next == null
      ensures View() == old(View()).(finished := Without(old(View()).finished, at))
      ensures Ticket(current.id, current.done, current.cancel) == old(View()).finished[at]
    {
      assert current.next == At(outs, at + 1);
      if previous != null {
        previous.next := current.next;
      } else {
        finished := current.next;
      }
      current.next := null;
      assert Skips(outs, at);
      assert Tickets(outs) == old(Tickets(outs));
      ChainSkips(outs, at);
      TicketsWithout(outs, at);
      outs := Without(outs, at);
    }

    /** Looks once through the finished list for a request and unlinks it. Where
        the code would wait to be woken, this returns null. */
    method GetFinished(id: uint64) returns (request: Request?, ghost at: nat)
      requires Valid()
      modifies `finished, `outs, outs
      ensures Valid()
      ensures request == null ==> View() == old(View()) && forall t | t in old(View()).finished :: t.id != id
      ensures request != null ==>
        && IsFirst(old(View()).finished, at, id) && request == old(outs)[at] && request.next == null
        && View() == old(View()).(finished := Without(old(View()).finished, at))
        && Ticket(request.id, request.done, request.cancel) == old(View()).finished[at]
    {
      var previous;
      request, previous, at := Find(id);
      if request != null {
        Unlink(request, previous, at);
      }
    }

    /** The walk to the end of the finished list. */
    method LastFinished() returns (last: Request)
      requires Valid() && finished != null
      ensures outs != [] && last == outs[|outs| - 1]
    {
      last := finished;
      ghost var i := 0;
      while last.next != null
        invariant 0 <= i < |outs| && last == outs[i]
        decreases |outs| - i
      {
        assert last.next == At(outs, i + 1);
        last, i := last.next, i + 1;
      }
      assert last.next == At(outs, i + 1);
    }

    /** Links the last finished node to a chain. */
    method LinkLast(head: Request?, ghost nodes: seq<Request>)
      requires Valid() && Chain(head, nodes) && finished != null
      requires forall i, j | 0 <= i < |outs| && 0 <= j < |nodes| :: outs[i] != nodes[j]
      modifies outs
      ensures Chain(finished, outs + nodes)
      ensures Tickets(outs) == old(Tickets(outs)) && Tickets(nodes) == old(Tickets(nodes))
    {
      var last := LastFinished();
      last.next := head;
      ChainConcat(outs, nodes);
    }

    /** Hangs a chain onto the end of the finished list. */
    method Append(head: Request?, ghost nodes: seq<Request>)
      requires Valid() && Chain(head, nodes)
      requires forall i, j | 0 <= i < |outs| && 0 <= j < |nodes| :: outs[i] != nodes[j]
      requires forall i, j | 0 <= i < |ins| && 0 <= j < |nodes| :: ins[i] != nodes[j]
      modifies `finished, `outs, outs
      ensures Chain(finished, outs) && Chain(pending, ins) && outs == old(outs) + nodes
      ensures Tickets(outs) == old(Tickets(outs)) + old(Tickets(nodes))
      ensures Tickets(ins) == old(Tickets(ins))
    {
      TicketsConcat(outs, nodes);
      if finished == null {
        finished := head;
        assert outs + nodes == nodes;
        outs := nodes;
      } else {
        LinkLast(head, nodes);
        TicketsConcat(outs, nodes);
        outs := outs + nodes;
      }
    }

    /** Every pending request is marked and handed to the finished list's end. */
    method Cancel()
      requires Valid()
      modifies `pending, `finished, `ins, `outs, ins, outs
      ensures Valid() && ins == [] && outs == old(outs) + old(ins)
      ensures View() == Cancelled(old(View()))
    {
      var l := pending;
      ghost var nodes := ins;
      pending, ins := null, [];
      Mark(l, nodes);
      assert Tickets(outs) == old(Tickets(outs));
      Append(l, nodes);
    }
  }

  /** Sets the cancel flag along a chain. */
  method Mark(head: Request?, ghost nodes: seq<Request>)
    requires Chain(head, nodes)
    modifies nodes
    ensures Chain(head, nodes) && Tickets(nodes) == CancelAll(old(Tickets(nodes)))
  {
    var current := head;
    ghost var i := 0;
    while current != null
      invariant 0 <= i <= |nodes| && current == At(nodes, i)
      invariant Chain(head, nodes)
      invariant forall j | 0 <= j < |nodes| ::
        Tickets(nodes)[j] == if j < i then old(Tickets(nodes))[j].(cancel := true) else old(Tickets(nodes))[j]
      decreases |nodes| - i
    {
      assert current.next == At(nodes, i + 1);
      current.cancel := true;
      current, i := current.next, i + 1;
    }
  }
}
