# Room registry and event relay of the remote audio controller

The server pairs one controller browser with any number of receiver browsers
in a room named by a six-symbol code (capital letters and digits) and relays
a "play" signal from the controller to the room. The state is one
process-wide dict, `rooms`, from code to `{controller_sid, receivers}`. The
Socket.IO event handlers read and change it in place:

- the controller page allocates a fresh code and inserts an empty room;
- `controller_join` makes the caller the controller;
- `receiver_join` appends the caller to the receivers;
- `receiver_leave` removes one occurrence of the caller;
- `play_sound` broadcasts `play_command` to the room's group;
- `disconnect` scans every room, closing the ones the connection controls
  and dropping the connection from the others.

The model is a class `Server.Registry` with three fields:

- `rooms: map<string, Room>` is the dict.
- `order: seq<string>` is the dict's insertion order, which is the order the
  disconnect scan visits rooms in, and so the order of its events.
- `groups: set<(string, Sid)>` holds the Socket.IO group memberships that
  `join_room` adds and `leave_room` removes.

Each handler is a method. It takes the connection id (`request.sid`) and the
room code already taken out of the payload. It updates the fields and returns
the events it emits, as `Out(event, target)` values. The target is the
sender (`Self`), one connection (`Conn`), or a group with an optional
skipped connection (`Group`). `Events.Received` says how many copies of an
event a given connection gets from such a sequence. The disconnect scan is
also written as functions of the registry before the scan (`Rooms.ScanEvents`,
`Rooms.Survivors`, `Rooms.AfterDisconnect`). The method is proved equal to
them, and the lemmas in `Rooms` prove what they imply. `Server.Session`
walks through a whole session against the handlers' contracts. Room AB12C3 is
created and its controller attaches. One receiver joins as "ab12c3"; another
first tries "ZZZZZZ" and then joins. The controller plays, and finally the
controller drops.

Details of the source kept in the model:

- Receiver codes are upper-cased (ASCII only); the controller, leave and play
  handlers use the code verbatim. Every key is a well-formed code
  (`Registry.Valid`), so a controller code with a lower-case letter never
  matches.
- `receivers` is a list, so a connection that joins twice is listed twice.
  `list.remove` drops the first occurrence only.
- `if controller_sid:` is Python truthiness: an unset controller and an
  empty-string id both count as "no controller" (`Rooms.Attached`). The
  `controller_sid == sid` tests are plain equality (`Rooms.Controls`).
- The disconnect scan does not stop at the first match. Every room the
  connection controls is closed; `room_closed` goes to that room's group and
  the room is deleted. Every other room that lists the connection loses one
  occurrence, and its attached controller is sent the new count. Because of
  the `elif`, a room the connection controls is closed even if the
  connection is also one of its receivers.
- `play_command` and `room_closed` go to the Socket.IO group of the code, not
  to the `receivers` list. `Registry.AllSubscribed` says that every listed
  receiver is in its room's group. Every handler preserves it, with one
  exception: `receiver_leave` by a connection listed twice. That connection
  leaves the group but stays listed once. It is still counted in
  `receiver_update`, but it no longer gets `play_command` or `room_closed`
  (`HandleReceiverLeave`'s last postcondition with
  `Rooms.RoomClosedRecipients`). That the scan keeps every listed receiver
  subscribed holds only because the transport's removal of a disconnected
  connection from its groups is not modelled. In the program, a receiver listed
  twice in a room it does not control stays listed once after it disconnects,
  but it is no longer in the group.

Further behaviour of the handlers that the model keeps:

- The disconnect scan visits every room and does not stop at the first
  match.
- Receivers form a list with possible duplicates, not a set.
- The leave handler does not upper-case its code.
- Broadcasts address the group, which may hold connections (the controller
  included) that are not receivers.

## Model

| member | source | states |
|---|---|---|
| RoomCodes.AlphabetAt | python/server.py:514 | every position of the population `ascii_uppercase + digits` holds a capital letter or a digit |
| RoomCodes.Spell | python/server.py:514 | a draw of six picks joins into a six-character code over A–Z0–9, pick by pick |
| RoomCodes.SpellInjective | python/server.py:514 | different draws give different codes |
| RoomCodes.SpellOnto | python/server.py:514 | every well-formed code is the spelling of some draw |
| RoomCodes.UpperChar | python/server.py:553 | a lower-case ASCII letter becomes its capital; every other character is kept |
| RoomCodes.Upper | python/server.py:553 | the result has the same length, no lower-case ASCII letter, capitals for lower-case letters and every other character kept |
| RoomCodes.UpperIdempotent | python/server.py:553 | upper-casing twice equals upper-casing once |
| RoomCodes.UpperOfRoomCode | python/server.py:553 | a well-formed code is its own upper-casing |
| RoomCodes.UpperMatchesRoomCode | python/server.py:553-554 | a typed code matches a room code exactly when it equals it up to the case of its letters (both directions) |
| ReceiverLists.RemoveFirst | python/server.py:576 | `list.remove` on a present element shortens the list by one |
| ReceiverLists.FirstIndex | python/server.py:605 | the element sits at the returned position and does not occur before it |
| ReceiverLists.RemoveFirstAt | python/server.py:605 | `list.remove` removes the first occurrence and keeps the rest in order |
| ReceiverLists.RemoveFirstCounts | python/server.py:576 | `list.remove` drops exactly one copy of the element and changes no other element's count |
| Events.Received | python/server.py:592 | the number of copies a connection gets is at most the number emitted, and is positive iff some emitted event of that kind is addressed to it |
| Events.ReceivedAppend | python/server.py:601-611 | deliveries of events emitted one after another add up |
| Rooms.Attached | python/server.py:606 | a controller is attached when it is set and is not the empty string, the Python truthiness of `controller_sid` tested here and at lines 563 and 579 |
| Rooms.Controls | python/server.py:599 | a connection controls a room when the stored `controller_sid` equals it, the test here and at line 590; an unset controller matches no connection |
| Rooms.StepEvents | python/server.py:599-611 | one room of the scan emits at most one event, and emits nothing exactly when the connection does not control it and is not listed in it under an attached controller |
| Rooms.ScanEvents | python/server.py:598-611 | the scan's events in the order the rooms are visited, at most one per room |
| Rooms.Survivors | python/server.py:598-602 | the keys the `del`s leave, in visiting order, never more than were scanned |
| Rooms.Partial | python/server.py:598-605 | the registry once the given keys are done: each of their rooms is deleted or has the connection dropped, and every other room is untouched |
| Rooms.Dropped | python/server.py:603-605 | a room that is not closed keeps its controller and loses one receiver iff it lists the connection, else it is unchanged |
| Rooms.AfterDisconnect | python/server.py:598-605 | after a disconnect, a room remains iff the connection did not control it; no remaining room is controlled by it; rooms not listing it are unchanged; rooms listing it keep their controller and lose exactly one copy of it |
| Rooms.ScanStep | python/server.py:598-611 | visiting the next of a list of distinct keys reaches its room untouched and extends the registry, events and surviving keys by that room's treatment |
| Rooms.SurvivorsAreKeys | python/server.py:598-602 | the surviving keys are distinct and are exactly the keys left after the disconnect |
| Rooms.AfterDisconnectSubscribed | python/server.py:598-605 | a disconnect only shrinks receiver lists, so every remaining receiver stays in its room's group |
| Rooms.PartialStep | python/server.py:598-605 | the scan reaches each room unchanged, then deletes it or drops the connection from it |
| Rooms.PartialDone | python/server.py:598 | once every key has been visited, the registry is the one after the disconnect |
| Rooms.SurvivorsMembers | python/server.py:602 | a key survives the scan iff the connection did not control its room |
| Rooms.SurvivorsDistinct | python/server.py:602 | deleting keys keeps the remaining keys distinct |
| Rooms.ScanEventsMembers | python/server.py:598-611 | the scan emits an event iff one of the visited rooms emits it |
| Rooms.RoomClosedRecipients | python/server.py:599-602 | a connection gets `room_closed` iff it is in the group of some room that the disconnecting connection controlled (both directions) |
| Rooms.ReceiverUpdateRecipients | python/server.py:603-611 | the scan sends `receiver_update{n}` to k iff k is the attached controller of a room the connection did not control but was listed in, and n is that room's new count |
| Rooms.ScanEventKinds | python/server.py:601-611 | the scan emits only `room_closed` to a group and `receiver_update` to one connection |
| Rooms.ClosedRoomReceiversNotified | python/server.py:599-602 | with every receiver subscribed, every receiver of a closed room gets `room_closed` |
| Server.Registry.constructor | python/server.py:19 | the registry starts with no rooms and no group memberships |
| Server.Registry.GenerateRoomCode | python/server.py:511-516 | the code is well formed, is not a key of the registry, and is the first draw whose spelling is free; if every draw collides, none is returned; the registry is not changed |
| Server.Registry.CreateRoom | python/server.py:527-532 | exactly one new key, the fresh code, is added, mapped to a room with no controller and no receivers, and appended to the insertion order; nothing else changes |
| Server.Registry.HandleControllerJoin | python/server.py:543-548 | an absent verbatim code changes nothing and emits nothing; otherwise the caller replaces the controller, the receivers are kept, the caller joins the group and gets `receiver_update` with the current count; a code with a lower-case letter never matches |
| Server.Registry.HandleReceiverJoin | python/server.py:552-568 | an absent upper-cased code changes nothing and replies `join_error` "Invalid room code"; otherwise the caller is appended once (count +1, other rooms unchanged), joins the group, gets `join_success` with the upper-cased code, and an attached controller gets the new count |
| Server.Registry.HandleReceiverLeave | python/server.py:572-584 | nothing changes unless the verbatim code exists and lists the caller; then one occurrence is removed (count −1), the caller leaves the group, and an attached controller gets the new count; a caller listed twice stays listed but leaves the group |
| Server.Registry.HandlePlaySound | python/server.py:588-592 | never changes the registry; emits one `play_command` to the code's group skipping the sender iff the room exists and the sender is its controller; each group member other than the sender gets exactly one copy, and nobody else gets any |
| Server.Registry.ScanRoom | python/server.py:599-611 | one room of the scan: if the connection controls it, the room is deleted and `room_closed` goes to its group; otherwise the room is treated as by `Dropped`, with `receiver_update` to an attached controller |
| Server.Registry.HandleDisconnect | python/server.py:596-611 | the new registry, key order and events are those of the scan over all rooms in insertion order; group memberships are unchanged; every listed receiver stays subscribed, because the transport's own group clean-up is not modelled |

## Left out

- Server.Registry.GenerateRoomCode: the random draws (`random.choices`) are a finite sequence supplied by the caller. When every draw collides the method returns no code, where the source keeps drawing forever. The probabilistic termination of that retry loop is not modelled.
- Server.Registry.CreateRoom: `created_at` (`datetime.now()`) is not stored, because nothing reads it. Rendering the page is not modelled.
- The HTML, CSS and JavaScript templates, the browser-side logic, `render_template_string` and the index and receiver page routes are not modelled. They are presentation.
- Socket.IO delivery is not modelled: emits are returned as values and groups are a set of memberships. The transport's own removal of a disconnected connection from its groups is not modelled either, so `groups` changes only through `join_room` and `leave_room`.
- Reading `data["room_code"]` is not modelled: a malformed payload raises `KeyError` in the source. Each handler takes the code as an already-extracted string.
- `str.upper()` is modelled on ASCII letters only. Python's Unicode case mapping is not modelled.
- Concurrency between handlers is not modelled: each handler is one atomic step.
- The `__main__` server start is not modelled.
