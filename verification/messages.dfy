/**
 Messages exchanged over the grid socket, after JSON decoding. Decoding
 itself is not modelled: whatever makes the handler raise while reading a
 message arrives here as `Malformed`: bad JSON, a non-object, a missing
 `type` key, an update missing its `index` or `value`, an `index` that
 cannot be compared with an integer, or a non-integer `index` that passes
 the range check. The `value`
 is never checked; an `int` stands for whatever the client sent.
 */
module Messages {
  import Grid

  /** Opaque identity of one connection; only compared for equality. */
  type ClientId = nat

  /** A message a client sends to the server. */
  datatype Inbound =
    | Update(index: int, value: int)
    | Reset
    | Unknown       // decodes, but `type` is neither "update" nor "reset"
    | Malformed     // reading it raises inside the receive loop

  /** A message the server sends to a client. */
  datatype Outbound =
    | Init(state: Grid.Cells)
    | Updated(index: int, value: int)
    | WasReset

  /** The sends one step asks for: at most one message per recipient. */
  type Outbox = map<ClientId, Outbound>

  /** The same message addressed to every client in `recipients`. */
  function Broadcast(recipients: set<ClientId>, m: Outbound): (out: Outbox)
    ensures out.Keys == recipients
    ensures forall c :: c in out ==> out[c] == m
  {
    map c | c in recipients :: m
  }
}
