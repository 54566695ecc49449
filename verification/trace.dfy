/**
 Runs of the hub over a sequence of events, each handled as one atomic
 step in the order given. A run yields the final hub and a log holding each
 step's sends; a client's inbox is what the log addresses to it, in order.
 */
module Trace {
  import Grid
  import opened Messages
  import opened Hub

  datatype Event =
    | Connect(c: ClientId)
    | Receive(sender: ClientId, msg: Inbound)
    | Close(c: ClientId)

  /** One event applied to the hub. */
  function Step(h: Hub, e: Event): (t: Transition)
    ensures |t.hub.grid| == |h.grid|
    ensures e.Connect? ==> t.out.Keys == {e.c} && e.c in t.hub.clients
    ensures e.Receive? ==> t.out.Keys <= h.clients && t.hub.clients <= h.clients
    ensures e.Close? ==> t.out == map[] && t.hub.clients == h.clients - {e.c}
  {
    match e
    case Connect(c) => Join(h, c)
    case Receive(s, m) => Handle(h, s, m)
    case Close(c) => Transition(Disconnect(h, c), map[])
  }

  /** The hub after every event of `es`, first to last. */
  function Run(h: Hub, es: seq<Event>): Hub
    decreases |es|
  {
    if es == [] then h
    else Step(Run(h, es[..|es| - 1]), es[|es| - 1]).hub
  }

  /** The sends of every event of `es`, one outbox per event, in order. */
  function Log(h: Hub, es: seq<Event>): (log: seq<Outbox>)
    decreases |es|
    ensures |log| == |es|
  {
    if es == [] then []
    else Log(h, es[..|es| - 1]) + [Step(Run(h, es[..|es| - 1]), es[|es| - 1]).out]
  }

  /** What `c` is sent over a log, in the order the steps sent it. */
  function Inbox(log: seq<Outbox>, c: ClientId): seq<Outbound>
    decreases |log|
  {
    if log == [] then []
    else
      var last := log[|log| - 1];
      Inbox(log[..|log| - 1], c) + (if c in last then [last[c]] else [])
  }

  /**
   Reference meaning of a cell after a run from the initial grid: the value
   of the last update written to it since the last reset, zero if none.
   */
  function CellAfter(es: seq<Event>, i: int): int
    decreases |es|
  {
    if es == [] then 0
    else match es[|es| - 1]
      case Receive(_, Update(j, v)) => if j == i then v else CellAfter(es[..|es| - 1], i)
      case Receive(_, Reset) => 0
      case _ => CellAfter(es[..|es| - 1], i)
  }

  /** No run changes the length of the grid. */
  lemma {:induction false} RunValid(h: Hub, es: seq<Event>)
    requires Valid(h)
    ensures Valid(Run(h, es))
    decreases |es|
  {
    if es != [] {
      RunValid(h, es[..|es| - 1]);
    }
  }

  /** Running `a` then `b` is running `a + b`. */
  lemma {:induction false} RunAppend(h: Hub, a: seq<Event>, b: seq<Event>)
    ensures Run(h, a + b) == Run(Run(h, a), b)
    decreases |b|
  {
    if b == [] {
      assert a + b == a;
    } else {
      var b' := b[..|b| - 1];
      assert (a + b)[..|a + b| - 1] == a + b';
      assert (a + b)[|a + b| - 1] == b[|b| - 1];
      RunAppend(h, a, b');
    }
  }

  /** The log of `a + b` is the log of `a` followed by the log of `b` from where `a` left off. */
  lemma {:induction false} LogAppend(h: Hub, a: seq<Event>, b: seq<Event>)
    ensures Log(h, a + b) == Log(h, a) + Log(Run(h, a), b)
    decreases |b|
  {
    if b == [] {
      assert a + b == a;
    } else {
      var b' := b[..|b| - 1];
      assert (a + b)[..|a + b| - 1] == a + b';
      assert (a + b)[|a + b| - 1] == b[|b| - 1];
      LogAppend(h, a, b');
      RunAppend(h, a, b');
    }
  }

  /** An inbox over two logs is the first log's messages, then the second's. */
  lemma {:induction false} InboxAppend(l1: seq<Outbox>, l2: seq<Outbox>, c: ClientId)
    ensures Inbox(l1 + l2, c) == Inbox(l1, c) + Inbox(l2, c)
    decreases |l2|
  {
    if l2 == [] {
      assert l1 + l2 == l1;
    } else {
      var l2' := l2[..|l2| - 1];
      assert (l1 + l2)[..|l1 + l2| - 1] == l1 + l2';
      assert (l1 + l2)[|l1 + l2| - 1] == l2[|l2| - 1];
      InboxAppend(l1, l2', c);
    }
  }

  /**
   Fan-out never reorders: with each event one atomic step, whatever earlier
   events address to a client precedes whatever later events address to it.
   */
  lemma DeliveryOrder(h: Hub, a: seq<Event>, b: seq<Event>, c: ClientId)
    ensures Inbox(Log(h, a + b), c) == Inbox(Log(h, a), c) + Inbox(Log(Run(h, a), b), c)
  {
    LogAppend(h, a, b);
    InboxAppend(Log(h, a), Log(Run(h, a), b), c);
  }

  /**
   Snapshot correctness: after any run from process start, every cell holds
   the last value written to it since the last reset.
   */
  lemma {:induction false} SnapshotCorrect(es: seq<Event>)
    ensures |Run(Start(), es).grid| == Grid.CellCount
    ensures forall i :: 0 <= i < Grid.CellCount ==> Run(Start(), es).grid[i] == CellAfter(es, i)
    decreases |es|
  {
    RunValid(Start(), es);
    if es != [] {
      var front := es[..|es| - 1];
      SnapshotCorrect(front);
      var h := Run(Start(), front);
      forall i | 0 <= i < Grid.CellCount
        ensures Run(Start(), es).grid[i] == CellAfter(es, i)
      {
        match es[|es| - 1]
        case Connect(c) =>
        case Close(c) =>
        case Receive(s, m) =>
          match m
          case Update(j, v) =>
            if Grid.InBounds(h.grid, j) {
              UpdateInRange(h, s, j, v);
            } else {
              UpdateOutOfRange(h, s, j, v);
            }
          case Reset =>
            ResetUniversal(h, s);
          case Unknown =>
          case Malformed =>
      }
    }
  }

  /** A client joining after any run is sent exactly that run's grid. */
  lemma LateJoinerSnapshot(es: seq<Event>, c: ClientId)
    ensures var t := Step(Run(Start(), es), Connect(c));
      && t.out.Keys == {c}
      && t.out[c].Init?
      && |t.out[c].state| == Grid.CellCount
      && forall i :: 0 <= i < Grid.CellCount ==> t.out[c].state[i] == CellAfter(es, i)
  {
    SnapshotCorrect(es);
  }

  /**
   Two in-range updates to the same cell, from any senders, are addressed to
   every other connected client in the order they were handled.
   */
  lemma UpdatesObservedInOrder(h: Hub, a: ClientId, b: ClientId, c: ClientId, i: int, v1: int, v2: int)
    requires 0 <= i < |h.grid|
    requires c in h.clients && c != a && c != b
    ensures Inbox(Log(h, [Receive(a, Update(i, v1)), Receive(b, Update(i, v2))]), c)
         == [Updated(i, v1), Updated(i, v2)]
  {
    var e1 := Receive(a, Update(i, v1));
    var e2 := Receive(b, Update(i, v2));
    DeliveryOrder(h, [e1], [e2], c);
    assert [e1] + [e2] == [e1, e2];
    var h1 := Run(h, [e1]);
    assert [e1][..0] == [];
    UpdateInRange(h, a, i, v1);
    UpdateInRange(h1, b, i, v2);
    assert Inbox(Log(h, [e1]), c) == [Updated(i, v1)];
    assert [e2][..0] == [];
    assert Inbox(Log(h1, [e2]), c) == [Updated(i, v2)];
  }

  /**
   Three connected clients; the first updates cell 10, then the third resets.
   The update is addressed only to the other two, the reset to all three.
   */
  lemma ThreeClientScenario(h: Hub, a: ClientId, b: ClientId, c: ClientId)
    requires Valid(h) && h.clients == {a, b, c}
    requires a != b && b != c && a != c
    ensures var es := [Receive(a, Update(10, 1)), Receive(c, Reset)];
      var log := Log(h, es);
      && log[0] == map[b := Updated(10, 1), c := Updated(10, 1)]
      && Valid(Run(h, es[..1])) && Run(h, es[..1]).grid[10] == 1
      && log[1] == map[a := WasReset, b := WasReset, c := WasReset]
      && Valid(Run(h, es))
      && Run(h, es).clients == {a, b, c}
      && forall i :: 0 <= i < Grid.CellCount ==> Run(h, es).grid[i] == 0
  {
    var es := [Receive(a, Update(10, 1)), Receive(c, Reset)];
    assert es[..1][..0] == [];
    UpdateInRange(h, a, 10, 1);
    var h1 := Run(h, es[..1]);
    ResetUniversal(h1, c);
    assert Log(h, es[..1])[0] == Handle(h, a, Update(10, 1)).out;
  }
}
