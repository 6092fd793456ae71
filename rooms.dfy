/** Rooms, and what the disconnect handler does to the registry and emits,
    written as functions of the registry before the scan. */
module Rooms {
  import opened Wrappers
  import opened Events
  import opened ReceiverLists

  /** A room's `controller_sid` and `receivers` list. */
  datatype Room = Room(controller: Option<Sid>, receivers: seq<Sid>)

  /** The room the controller page creates: no controller, no receivers. */
  const EmptyRoom: Room := Room(None, [])

  /** Python truthiness of `controller_sid`: set, and not the empty string. */
  predicate Attached(r: Room) {
    r.controller.Some? && r.controller.value != ""
  }

  /** `controller_sid == sid`; an unset controller equals no connection. */
  predicate Controls(r: Room, sid: Sid) {
    r.controller == Some(sid)
  }

  predicate Distinct<T(==)>(s: seq<T>) {
    forall i, j :: 0 <= i < j < |s| ==> s[i] != s[j]
  }

  /** Every listed receiver of a room is a member of that room's group. */
  predicate Subscribed(rooms: map<string, Room>, groups: set<Membership>) {
    forall c, s :: c in rooms && s in rooms[c].receivers ==> (c, s) in groups
  }

  /** The scan's treatment of a room that `sid` does not control: one
      occurrence of `sid` leaves its receivers, if it is there. */
  function Dropped(r: Room, sid: Sid): (d: Room)
    ensures d.controller == r.controller
    ensures sid in r.receivers ==> |d.receivers| == |r.receivers| - 1
    ensures sid !in r.receivers ==> d == r
  {
    if sid in r.receivers then r.(receivers := RemoveFirst(r.receivers, sid)) else r
  }

  /** The events the scan emits for one room. */
  function StepEvents(code: string, r: Room, sid: Sid): (e: seq<OutEvent>)
    ensures |e| <= 1
    ensures e == [] <==> !Controls(r, sid) && !(sid in r.receivers && Attached(r))
  {
    if Controls(r, sid) then [Out(RoomClosed, Group(code, None))]
    else if sid in r.receivers && Attached(r) then
      [Out(ReceiverUpdate(|Dropped(r, sid).receivers|), Conn(r.controller.value))]
    else []
  }

  /** The events of the scan over `codes`, in that order: at most one per room. */
  function ScanEvents(codes: seq<string>, rooms: map<string, Room>, sid: Sid): (e: seq<OutEvent>)
    requires forall c :: c in codes ==> c in rooms
    ensures |e| <= |codes|
  {
    if codes == [] then []
    else
      var c := codes[|codes| - 1];
      ScanEvents(codes[..|codes| - 1], rooms, sid) + StepEvents(c, rooms[c], sid)
  }

  /** The codes of `codes` whose rooms outlive the scan, in order. */
  function Survivors(codes: seq<string>, rooms: map<string, Room>, sid: Sid): (s: seq<string>)
    requires forall c :: c in codes ==> c in rooms
    ensures |s| <= |codes|
  {
    if codes == [] then []
    else
      var c := codes[|codes| - 1];
      Survivors(codes[..|codes| - 1], rooms, sid) + (if Controls(rooms[c], sid) then [] else [c])
  }

  /** The registry after `sid` disconnects. */
  function AfterDisconnect(rooms: map<string, Room>, sid: Sid): (after: map<string, Room>)
    ensures forall c :: c in after <==> c in rooms && !Controls(rooms[c], sid)
    ensures forall c :: c in after ==> !Controls(after[c], sid)
    ensures forall c :: c in after && sid !in rooms[c].receivers ==> after[c] == rooms[c]
    ensures forall c :: c in after && sid in rooms[c].receivers ==>
      after[c].controller == rooms[c].controller &&
      |after[c].receivers| == |rooms[c].receivers| - 1 &&
      multiset(after[c].receivers) == multiset(rooms[c].receivers) - multiset{sid}
  {
    var after := map c | c in rooms && !Controls(rooms[c], sid) :: Dropped(rooms[c], sid);
    forall c | c in after && sid in rooms[c].receivers
      ensures multiset(after[c].receivers) == multiset(rooms[c].receivers) - multiset{sid}
    {
      RemoveFirstCounts(rooms[c].receivers, sid);
    }
    after
  }

  /** The registry part-way through the scan, once the rooms of `codes` are done. */
  function Partial(codes: seq<string>, rooms: map<string, Room>, sid: Sid): map<string, Room> {
    map c | c in rooms && (c in codes ==> !Controls(rooms[c], sid)) ::
      if c in codes then Dropped(rooms[c], sid) else rooms[c]
  }

  /** One more room of the scan: the room the scan reaches is still untouched,
      and is either deleted or has `sid` dropped from it. */
  lemma PartialStep(codes: seq<string>, c: string, rooms: map<string, Room>, sid: Sid)
    requires c in rooms && c !in codes
    ensures c in Partial(codes, rooms, sid) && Partial(codes, rooms, sid)[c] == rooms[c]
    ensures Partial(codes + [c], rooms, sid) ==
      if Controls(rooms[c], sid) then Partial(codes, rooms, sid) - {c}
      else Partial(codes, rooms, sid)[c := Dropped(rooms[c], sid)]
  {
  }

  /** Once every key is done, the scan has reached the registry after the disconnect. */
  lemma PartialDone(codes: seq<string>, rooms: map<string, Room>, sid: Sid)
    requires forall c :: c in rooms ==> c in codes
    ensures Partial(codes, rooms, sid) == AfterDisconnect(rooms, sid)
  {
  }

  /** A surviving code is one of the scanned codes whose room `sid` did not control. */
  lemma {:induction false} SurvivorsMembers(codes: seq<string>, rooms: map<string, Room>, sid: Sid, c: string)
    requires forall c :: c in codes ==> c in rooms
    ensures c in Survivors(codes, rooms, sid) <==> c in codes && !Controls(rooms[c], sid)
  {
    if codes != [] {
      var init := codes[..|codes| - 1];
      assert codes == init + [codes[|codes| - 1]];
      SurvivorsMembers(init, rooms, sid, c);
    }
  }

  /** Filtering keeps the codes distinct. */
  lemma {:induction false} SurvivorsDistinct(codes: seq<string>, rooms: map<string, Room>, sid: Sid)
    requires forall c :: c in codes ==> c in rooms
    requires Distinct(codes)
    ensures Distinct(Survivors(codes, rooms, sid))
  {
    if codes != [] {
      var init := codes[..|codes| - 1];
      var last := codes[|codes| - 1];
      SurvivorsDistinct(init, rooms, sid);
      SurvivorsMembers(init, rooms, sid, last);
      assert last !in init;
    }
  }

  /** Visiting one more room of distinct codes: the room is reached
      untouched, and the scan's registry, events and survivors grow by that
      room's treatment. */
  lemma ScanStep(codes: seq<string>, i: nat, rooms: map<string, Room>, sid: Sid)
    requires i < |codes| && Distinct(codes) && forall c :: c in codes ==> c in rooms
    ensures codes[i] in Partial(codes[..i], rooms, sid)
    ensures Partial(codes[..i], rooms, sid)[codes[i]] == rooms[codes[i]]
    ensures Partial(codes[..i + 1], rooms, sid) ==
      if Controls(rooms[codes[i]], sid) then Partial(codes[..i], rooms, sid) - {codes[i]}
      else Partial(codes[..i], rooms, sid)[codes[i] := Dropped(rooms[codes[i]], sid)]
    ensures ScanEvents(codes[..i + 1], rooms, sid) ==
      ScanEvents(codes[..i], rooms, sid) + StepEvents(codes[i], rooms[codes[i]], sid)
    ensures Survivors(codes[..i + 1], rooms, sid) ==
      Survivors(codes[..i], rooms, sid) + (if Controls(rooms[codes[i]], sid) then [] else [codes[i]])
  {
    assert codes[..i + 1][..i] == codes[..i];
    assert codes[..i + 1] == codes[..i] + [codes[i]];
    assert codes[i] !in codes[..i];
    PartialStep(codes[..i], codes[i], rooms, sid);
  }

  /** The surviving codes list each remaining key once. */
  lemma SurvivorsAreKeys(codes: seq<string>, rooms: map<string, Room>, sid: Sid)
    requires Distinct(codes) && forall c :: c in codes <==> c in rooms
    ensures Distinct(Survivors(codes, rooms, sid))
    ensures forall c :: c in Survivors(codes, rooms, sid) <==> c in AfterDisconnect(rooms, sid)
  {
    SurvivorsDistinct(codes, rooms, sid);
    forall c ensures c in Survivors(codes, rooms, sid) <==> c in AfterDisconnect(rooms, sid) {
      SurvivorsMembers(codes, rooms, sid, c);
    }
  }

  /** A disconnect only shrinks receiver lists, so receivers stay subscribed. */
  lemma AfterDisconnectSubscribed(rooms: map<string, Room>, groups: set<Membership>, sid: Sid)
    requires Subscribed(rooms, groups)
    ensures Subscribed(AfterDisconnect(rooms, sid), groups)
  {
    var after := AfterDisconnect(rooms, sid);
    forall c, s | c in after && s in after[c].receivers ensures (c, s) in groups {
      assert multiset(after[c].receivers)[s] > 0;
    }
  }

  /** An event is emitted by the scan exactly when one of the scanned rooms emits it. */
  lemma {:induction false} ScanEventsMembers(codes: seq<string>, rooms: map<string, Room>, sid: Sid, e: OutEvent)
    requires forall c :: c in codes ==> c in rooms
    ensures e in ScanEvents(codes, rooms, sid) <==>
      exists i :: 0 <= i < |codes| && e in StepEvents(codes[i], rooms[codes[i]], sid)
  {
    if codes != [] {
      var n := |codes| - 1;
      var init := codes[..n];
      ScanEventsMembers(init, rooms, sid, e);
      assert ScanEvents(codes, rooms, sid) == ScanEvents(init, rooms, sid) + StepEvents(codes[n], rooms[codes[n]], sid);
      assert forall i :: 0 <= i < n ==> init[i] == codes[i];
    }
  }

  /** A connection receives `room_closed` from the scan exactly when it is a
      member of the group of some room that `sid` controlled. */
  lemma RoomClosedRecipients(codes: seq<string>, rooms: map<string, Room>, groups: set<Membership>, sid: Sid, m: Sid)
    requires forall c :: c in codes ==> c in rooms
    ensures Received(ScanEvents(codes, rooms, sid), sid, groups, RoomClosed, m) > 0 <==>
      exists i :: 0 <= i < |codes| && Controls(rooms[codes[i]], sid) && (codes[i], m) in groups
  {
    var out := ScanEvents(codes, rooms, sid);
    if Received(out, sid, groups, RoomClosed, m) > 0 {
      var j :| 0 <= j < |out| && out[j].event == RoomClosed && Delivers(out[j].target, sid, groups, m);
      ScanEventsMembers(codes, rooms, sid, out[j]);
      var i :| 0 <= i < |codes| && out[j] in StepEvents(codes[i], rooms[codes[i]], sid);
      assert Controls(rooms[codes[i]], sid) && (codes[i], m) in groups;
    }
    if exists i :: 0 <= i < |codes| && Controls(rooms[codes[i]], sid) && (codes[i], m) in groups {
      var i :| 0 <= i < |codes| && Controls(rooms[codes[i]], sid) && (codes[i], m) in groups;
      var e := Out(RoomClosed, Group(codes[i], None));
      assert e in StepEvents(codes[i], rooms[codes[i]], sid);
      ScanEventsMembers(codes, rooms, sid, e);
      var j :| 0 <= j < |out| && out[j] == e;
      assert out[j].event == RoomClosed && Delivers(out[j].target, sid, groups, m);
    }
  }

  /** The scan sends `receiver_update{count}` to connection k exactly when
      k is the attached controller of a scanned room that lost `sid` as a
      receiver, and count is that room's new number of receivers. */
  lemma ReceiverUpdateRecipients(codes: seq<string>, rooms: map<string, Room>, sid: Sid, n: nat, k: Sid)
    requires forall c :: c in codes ==> c in rooms
    ensures Out(ReceiverUpdate(n), Conn(k)) in ScanEvents(codes, rooms, sid) <==>
      exists i :: 0 <= i < |codes| &&
        !Controls(rooms[codes[i]], sid) && sid in rooms[codes[i]].receivers && Attached(rooms[codes[i]]) &&
        rooms[codes[i]].controller == Some(k) && n == |rooms[codes[i]].receivers| - 1
  {
  }

  /** The scan emits nothing but `room_closed` to a group and `receiver_update` to a connection. */
  lemma ScanEventKinds(codes: seq<string>, rooms: map<string, Room>, sid: Sid, e: OutEvent)
    requires forall c :: c in codes ==> c in rooms
    requires e in ScanEvents(codes, rooms, sid)
    ensures (e.event == RoomClosed && e.target.Group? && e.target.skip == None) ||
            (e.event.ReceiverUpdate? && e.target.Conn?)
  {
  }

  /** With every receiver subscribed to its room's group, every receiver of a
      room that `sid` controlled gets `room_closed`. */
  lemma ClosedRoomReceiversNotified(codes: seq<string>, rooms: map<string, Room>, groups: set<Membership>, sid: Sid, c: string, m: Sid)
    requires forall c :: c in codes ==> c in rooms
    requires Subscribed(rooms, groups)
    requires c in codes && Controls(rooms[c], sid) && m in rooms[c].receivers
    ensures Received(ScanEvents(codes, rooms, sid), sid, groups, RoomClosed, m) > 0
  {
    var i :| 0 <= i < |codes| && codes[i] == c;
    RoomClosedRecipients(codes, rooms, groups, sid, m);
  }
}
