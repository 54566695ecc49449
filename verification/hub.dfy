/**
 The connection hub: the shared grid together with the set of connected
 clients, and one pure transition per thing that can happen on a
 connection (it opens, it delivers a message, it closes). Each transition
 returns the new hub and the sends it asks for; whether a send reaches its
 recipient is decided separately by `Deliver`.
 */
module Hub {
  import Grid
  import opened Messages

  datatype Hub = Hub(grid: Grid.Cells, clients: set<ClientId>)

  /** The hub after a step, with the messages that step sends. */
  datatype Transition = Transition(hub: Hub, out: Outbox)

  /** The grid keeps its process-start length forever. */
  predicate Valid(h: Hub)
  {
    |h.grid| == Grid.CellCount
  }

  /** The hub at process start: an all-zero grid and nobody connected. */
  function Start(): (h: Hub)
    ensures Valid(h)
    ensures h.clients == {}
    ensures forall i :: 0 <= i < |h.grid| ==> h.grid[i] == 0
  {
    Hub(Grid.Initial(), {})
  }

  /** A connection is accepted: it joins the set and is sent the whole grid. */
  function Join(h: Hub, c: ClientId): (t: Transition)
    ensures t.hub.grid == h.grid
    ensures c in t.hub.clients && t.hub.clients - {c} == h.clients - {c}
    ensures t.out.Keys == {c} && t.out[c] == Init(h.grid)
  {
    Transition(Hub(h.grid, h.clients + {c}), map[c := Init(h.grid)])
  }

  /** One message from `sender`, handled to completion. */
  function Handle(h: Hub, sender: ClientId, msg: Inbound): (t: Transition)
    ensures |t.hub.grid| == |h.grid|
    ensures t.hub.clients <= h.clients
    ensures t.out.Keys <= h.clients
    ensures msg.Update? ==> sender !in t.out
    ensures t.out != map[] ==> t.hub.clients == h.clients
  {
    match msg
    case Update(i, v) =>
      if Grid.InBounds(h.grid, i) then
        Transition(Hub(Grid.Write(h.grid, i, v), h.clients),
                   Broadcast(h.clients - {sender}, Updated(i, v)))
      else
        Transition(h, map[])
    case Reset =>
      Transition(Hub(Grid.Zeros(|h.grid|), h.clients), Broadcast(h.clients, WasReset))
    case Unknown =>
      Transition(h, map[])
    case Malformed =>
      // the generic error handler removes the sender only if it is still present
      var remaining := if sender in h.clients then h.clients - {sender} else h.clients;
      Transition(Hub(h.grid, remaining), map[])
  }

  /** The connection closes: it leaves the set; the grid is untouched. */
  function Disconnect(h: Hub, c: ClientId): (h': Hub)
    ensures h'.grid == h.grid
    ensures c !in h'.clients
    ensures forall d :: d in h.clients && d != c ==> d in h'.clients
    ensures h'.clients <= h.clients
  {
    Hub(h.grid, h.clients - {c})
  }

  /**
   The send loop of a broadcast. Recipients in `failing` raise when sent to;
   the exception is swallowed and the loop carries on with the others.
   */
  method Deliver(out: Outbox, failing: set<ClientId>) returns (delivered: Outbox)
    ensures delivered.Keys == out.Keys - failing
    ensures forall c :: c in delivered ==> delivered[c] == out[c]
  {
    delivered := map[];
    var pending := out.Keys;
    while pending != {}
      invariant pending <= out.Keys
      invariant delivered.Keys == (out.Keys - pending) - failing
      invariant forall c :: c in delivered ==> c in out && delivered[c] == out[c]
      decreases pending
    {
      var c :| c in pending;
      if c !in failing {
        delivered := delivered[c := out[c]];
      }
      pending := pending - {c};
    }
  }

  /**
   A message handled and its sends attempted, some of which may fail. The
   resulting hub does not depend on `failing`: a failed send removes nobody.
   */
  method Process(h: Hub, sender: ClientId, msg: Inbound, failing: set<ClientId>)
    returns (h': Hub, delivered: Outbox)
    ensures h' == Handle(h, sender, msg).hub
    ensures delivered.Keys == Handle(h, sender, msg).out.Keys - failing
    ensures forall c :: c in delivered ==> delivered[c] == Handle(h, sender, msg).out[c]
  {
    var t := Handle(h, sender, msg);
    h' := t.hub;
    delivered := Deliver(t.out, failing);
  }

  /** An in-range update writes exactly one cell and is addressed to every other client. */
  lemma UpdateInRange(h: Hub, sender: ClientId, i: int, v: int)
    requires 0 <= i < |h.grid|
    ensures var t := Handle(h, sender, Update(i, v));
      && |t.hub.grid| == |h.grid|
      && t.hub.grid[i] == v
      && (forall j :: 0 <= j < |h.grid| && j != i ==> t.hub.grid[j] == h.grid[j])
      && t.hub.clients == h.clients
      && t.out.Keys == h.clients - {sender}
      && (forall c :: c in t.out ==> t.out[c] == Updated(i, v))
  {
  }

  /** An out-of-range update changes nothing and sends nothing. */
  lemma UpdateOutOfRange(h: Hub, sender: ClientId, i: int, v: int)
    requires i < 0 || i >= |h.grid|
    ensures Handle(h, sender, Update(i, v)) == Transition(h, map[])
  {
  }

  /** An update is never addressed back to its sender. */
  lemma EchoSuppressed(h: Hub, sender: ClientId, i: int, v: int)
    ensures sender !in Handle(h, sender, Update(i, v)).out
    ensures forall c :: c in h.clients && c != sender && 0 <= i < |h.grid| ==>
      c in Handle(h, sender, Update(i, v)).out
  {
  }

  /** A reset zeroes every cell and is sent to every client, the sender included. */
  lemma ResetUniversal(h: Hub, sender: ClientId)
    ensures var t := Handle(h, sender, Reset);
      && |t.hub.grid| == |h.grid|
      && (forall j :: 0 <= j < |t.hub.grid| ==> t.hub.grid[j] == 0)
      && t.hub.clients == h.clients
      && t.out.Keys == h.clients
      && (forall c :: c in t.out ==> t.out[c] == WasReset)
      && (sender in h.clients ==> sender in t.out)
  {
  }

  /** A well-formed message of an unknown type changes nothing and sends nothing. */
  lemma UnknownIgnored(h: Hub, sender: ClientId)
    ensures Handle(h, sender, Unknown) == Transition(h, map[])
  {
  }

  /** A malformed message drops exactly its sender, keeps the grid and sends nothing. */
  lemma MalformedDropsSender(h: Hub, sender: ClientId)
    ensures var t := Handle(h, sender, Malformed);
      && t.hub.grid == h.grid
      && t.hub.clients == h.clients - {sender}
      && t.out == map[]
  {
  }

  /** Removal on the error path is guarded by membership, so doing it twice is doing it once. */
  lemma MalformedRemovalIdempotent(h: Hub, sender: ClientId)
    ensures var once := Handle(h, sender, Malformed).hub;
      Handle(once, sender, Malformed) == Transition(once, map[])
  {
  }

  /** Closing removes exactly the closing client. */
  lemma DisconnectExact(h: Hub, c: ClientId)
    ensures Disconnect(h, c).clients == h.clients - {c}
    ensures Disconnect(Disconnect(h, c), c) == Disconnect(h, c)
  {
  }

  /** A connection that joins and then closes leaves the hub as it found it. */
  lemma JoinThenDisconnect(h: Hub, c: ClientId)
    requires c !in h.clients
    ensures Disconnect(Join(h, c).hub, c) == h
  {
  }

  /** Every recipient of a step's sends is still connected after it, delivered or not. */
  lemma RecipientsStayConnected(h: Hub, sender: ClientId, msg: Inbound)
    ensures Handle(h, sender, msg).out.Keys <= Handle(h, sender, msg).hub.clients
  {
  }
}
