# Shared-grid hub

A model of the WebSocket hub of a small collaborative grid server. The
server keeps one 50 × 50 grid of cells (2500 cells, all zero at start) and
the set of connected clients. A new connection joins the set and is sent
the whole grid in an `init` message. After that, each message it sends is
handled to completion before the next one:

- an `update` with an index inside the grid writes that cell and is relayed
  to every other client;
- a `reset` zeroes the grid and is relayed to every client, the sender
  included;
- any other `type` is ignored;
- a message whose handling raises makes the generic error handler remove the
  sender. It raises on bad JSON, on a message that is not an object, on a
  missing `type` key, on an update missing its `index` or `value`, on an
  `index` that cannot be compared with an integer, and on a non-integer `index` that passes the
  range check (`1.5`). A non-integer `index` outside the range (`-0.5`,
  `1e9`) is silently ignored, and the `value` is never checked at all.

A disconnect removes the client.

The model is a sequential state machine:

- `Grid` holds the cells: the initial grid, the guarded write and the reset loop.
- `Messages` holds the inbound and outbound messages and the `Outbox`. An
  `Outbox` maps each recipient to the one message a step sends it.
- `Hub` holds the state `(grid, clients)` and one pure transition per
  connection event (`Join`, `Handle`, `Disconnect`). It also holds the send
  loop `Deliver`, in which the sends to some recipients fail.
- `Trace` runs the hub over a sequence of events. It proves that the grid
  holds the last value written to each cell since the last reset, and that
  fan-out never reorders what is addressed to a client.

Three behaviours of the code are worth naming, because a reader might expect
otherwise:

- A malformed message drops the sender's connection instead of being
  ignored. The generic `except Exception` handler removes the sender after a
  membership check (server.py:84-87).
- A failed send to a peer is swallowed by a bare `except: pass`
  (server.py:64-65, 78-79). The peer stays in the client set and is not
  disconnected.
- Cell values are stored and relayed as received (server.py:47, 50, 53-57).
  The comment at server.py:12 says `0 = black, 1 = white`, but nothing
  restricts a cell to 0 or 1.

## Model

| member | source | states |
|---|---|---|
| Grid.Initial | server.py:13-14 | the starting grid has exactly 2500 cells and every one of them is 0 |
| Grid.Write | server.py:49-50 | an in-range write sets that cell to the value as given, keeps every other cell and keeps the length |
| Grid.ResetCells | server.py:69-70 | the index-by-index reset loop leaves a grid of the same length with every cell 0 |
| Messages.Broadcast | server.py:59-63 | a broadcast addresses exactly the given recipients, each with the same message |
| Hub.Start | server.py:13-17 | the hub starts with a valid 2500-cell all-zero grid and no clients |
| Hub.Join | server.py:28-37 | the joining client becomes a member, other memberships and the grid are unchanged, and it alone is sent one `init` carrying the current grid |
| Hub.Handle | server.py:40-87 | handling any message keeps the grid length, never adds a client, only addresses current clients, never echoes an update to its sender, and removes nobody when it sends something |
| Hub.Disconnect | server.py:81-82 | a disconnect removes the client, keeps every other client and the grid |
| Hub.Deliver | server.py:60-65 | the send loop delivers to every recipient whose send does not fail, with the message meant for it, and carries on past every failed send |
| Hub.Process | server.py:44-79 | a handled message's state change does not depend on which sends fail, and exactly the non-failing recipients get their messages |
| Hub.UpdateInRange | server.py:49-63 | an in-range update writes exactly that cell, keeps the others and the clients, and goes to exactly the clients other than the sender with the same index and value |
| Hub.UpdateOutOfRange | server.py:49 | an update with a negative index or an index at or past the grid length changes nothing and sends nothing |
| Hub.EchoSuppressed | server.py:59-63 | an update is never addressed to its sender, and is addressed to every other client when the index is in range |
| Hub.ResetUniversal | server.py:67-79 | a reset zeroes every cell, keeps the length and the clients, and sends `reset` to exactly the clients, the sender included when connected |
| Hub.UnknownIgnored | server.py:44-67 | a message whose type is neither update nor reset changes nothing and sends nothing |
| Hub.MalformedDropsSender | server.py:84-87 | a message that raises removes exactly its sender, keeps the grid and sends nothing |
| Hub.MalformedRemovalIdempotent | server.py:86-87 | the membership-guarded removal done a second time changes nothing |
| Hub.DisconnectExact | server.py:81-82 | a disconnect removes exactly that client, and disconnecting twice is disconnecting once |
| Hub.JoinThenDisconnect | server.py:29-82 | a new client that joins and then leaves restores the hub it found |
| Hub.RecipientsStayConnected | server.py:60-65 | every recipient a step addresses is still a client after the step, whether or not its send succeeds |
| Trace.Step | server.py:28-87 | each event of a connection is dispatched to one hub transition: accept to a join that addresses only the newcomer, a received message to its handling, a disconnect to a removal that sends nothing; no event changes the grid length |
| Trace.RunValid | server.py:40-79 | no sequence of events changes the grid's 2500-cell length |
| Trace.DeliveryOrder | server.py:40-79 | what earlier events address to a client comes before what later events address to it, when each event is handled as one atomic step |
| Trace.SnapshotCorrect | server.py:14-70 | after any run from the start, each cell holds the last value written to it since the last reset, or 0 |
| Trace.LateJoinerSnapshot | server.py:28-37 | a client joining after any run gets exactly one `init`, whose grid is the last-write-wins grid of that run |
| Trace.UpdatesObservedInOrder | server.py:49-63 | two in-range updates from any senders are addressed to every other connected client in the order they were handled |
| Trace.ThreeClientScenario | server.py:44-79 | with clients A, B and C, A's update of cell 10 to 1 is addressed only to B and C and sets the cell, and C's reset is then addressed to all three and zeroes the grid |

## Left out

- Cell values and indices are modelled as `int`: the source stores and relays a `value` of any JSON type, and the model's results do not depend on its type. A boolean `index` acts as 0 or 1, which the `int` index covers.
- The HTTP side: the application object, the static file mount and the `GET /` route (server.py:9, 20-24). These are file I/O.
- Process start-up with `uvicorn.run` on port 8000 (server.py:89-90).
- JSON encoding and decoding. Messages are a datatype. Every way a message can make the loop raise (invalid JSON, a non-object, a missing `type` key, an update missing its `index` or `value`, an `index` that cannot be compared with an integer, a non-integer `index` inside the range) is the single `Malformed` variant. Every well-formed message of another type is `Unknown`.
- Concurrency between connections. Each event is one atomic step. So the model does not show three interleavings of the source. First, a client that joins during another client's broadcast may be sent updates before its `init`. Second, a change to the client set while a broadcast loop is suspended in a send raises in that loop, and the error handler then removes the sender of that broadcast. Third, two broadcasts can interleave at a suspended send (server.py:61-63): while update 1's loop waits on its send to client W, W's own update 2 to the same cell is handled and sent to client X; update 1's loop then resumes and sends update 1 to X, so X sees 2 then 1 while the grid holds 2.
- The order in which a set is iterated. Recipients are a set, so the model does not fix the order of sends within one broadcast.
- Logging with `print` (server.py:30, 83, 85).
- A failing `init` send on join. It raises into the same handlers as a disconnect. `Hub.JoinThenDisconnect` covers its effect: the hub is left as it was found.
- Hub.Disconnect: removing a client that is absent is a no-op here. In the source, `remove` would raise in that case. That cannot happen, because each connection removes only itself, and only once.
- Trace.Run: a message from a client that has already left is still handled. In the source, a connection that has left no longer delivers messages. No property proved here depends on who is connected when a message arrives.
- Trace.DeliveryOrder: this lemma and Trace.UpdatesObservedInOrder order what is addressed to a client when every event is one atomic step. They say nothing about receipt under the interleaving at a suspended send described above, where the source can reorder two updates.
