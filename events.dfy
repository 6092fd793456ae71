module Wrappers {
  datatype Option<+T> = None | Some(value: T)
}

/** The outbound events of the relay, returned as data, and who each one
    reaches when the transport delivers it. */
module Events {
  import opened Wrappers

  /** A transport-assigned connection id (`request.sid`). */
  type Sid = string

  /** Membership of connection `.1` in the Socket.IO group named `.0`. */
  type Membership = (string, Sid)

  /** The message a receiver gets for a code no room has. */
  const InvalidRoomCode: string := "Invalid room code"

  datatype Event =
    | ReceiverUpdate(count: nat)
    | JoinSuccess(roomCode: string)
    | JoinError(message: string)
    | PlayCommand
    | RoomClosed

  /** `emit` with no room (the connection that sent the event), `room=sid`
      (one connection), or `room=code` with an optional `skip_sid` (a group). */
  datatype Target = Self | Conn(sid: Sid) | Group(code: string, skip: Option<Sid>)

  datatype OutEvent = Out(event: Event, target: Target)

  /** Whether an event sent by `sender` to target t reaches connection `to`. */
  predicate Delivers(t: Target, sender: Sid, groups: set<Membership>, to: Sid) {
    match t
    case Self => to == sender
    case Conn(s) => to == s
    case Group(code, skip) => (code, to) in groups && skip != Some(to)
  }

  /** How many copies of event e connection `to` receives from the emitted sequence. */
  function Received(out: seq<OutEvent>, sender: Sid, groups: set<Membership>, e: Event, to: Sid): (n: nat)
    ensures n <= |out|
    ensures n > 0 <==> exists i :: 0 <= i < |out| && out[i].event == e && Delivers(out[i].target, sender, groups, to)
  {
    if out == [] then 0
    else
      var last := out[|out| - 1];
      Received(out[..|out| - 1], sender, groups, e, to)
        + (if last.event == e && Delivers(last.target, sender, groups, to) then 1 else 0)
  }

  /** Deliveries of events emitted one after another add up. */
  lemma {:induction false} ReceivedAppend(a: seq<OutEvent>, b: seq<OutEvent>, sender: Sid, groups: set<Membership>, e: Event, to: Sid)
    ensures Received(a + b, sender, groups, e, to)
         == Received(a, sender, groups, e, to) + Received(b, sender, groups, e, to)
  {
    if b != [] {
      assert (a + b)[..|a + b| - 1] == a + b[..|b| - 1];
      ReceivedAppend(a, b[..|b| - 1], sender, groups, e, to);
    } else {
      assert a + b == a;
    }
  }
}
