/** The process-wide room registry and the Socket.IO event handlers that
    read and update it. Each handler is one atomic step: it takes the
    caller's connection id and the room code already taken out of the
    payload, updates the registry in place and returns what it emits. */
module Server {
  import opened Wrappers
  import opened RoomCodes
  import opened ReceiverLists
  import opened Events
  import opened Rooms

  class Registry {
    /** The `rooms` dict: room code to room. */
    var rooms: map<string, Room>
    /** The dict's keys in insertion order, the order any scan visits them in. */
    var order: seq<string>
    /** Group memberships made by `join_room` and undone by `leave_room`. */
    var groups: set<Membership>

    /** Every key is a generated code, and `order` lists each key once. */
    ghost predicate Valid()
      reads this
    {
      && (forall c :: c in rooms ==> IsRoomCode(c))
      && Distinct(order)
      && (forall c :: c in order <==> c in rooms)
    }

    /** Every listed receiver is a member of its room's group, so it gets
        what is emitted to the room. */
    ghost predicate AllSubscribed()
      reads this
    {
      Subscribed(rooms, groups)
    }

    /** The registry at process start: no rooms. */
    constructor ()
      ensures Valid() && AllSubscribed()
      ensures rooms == map[] && order == [] && groups == {}
    {
      rooms, order, groups := map[], [], {};
    }

    /** `generate_room_code`: tries the draws in turn and returns the first
        spelling that is not a key of the registry. */
    method GenerateRoomCode(draws: seq<Draw>) returns (code: Option<string>)
      ensures code.Some? ==> IsRoomCode(code.value) && code.value !in rooms
      ensures code.Some? ==>
        exists k :: 0 <= k < |draws| && code.value == Spell(draws[k]) &&
                    (forall j :: 0 <= j < k ==> Spell(draws[j]) in rooms)
      ensures code.None? ==> forall j :: 0 <= j < |draws| ==> Spell(draws[j]) in rooms
    {
      var i := 0;
      while i < |draws|
        invariant 0 <= i <= |draws|
        invariant forall j :: 0 <= j < i ==> Spell(draws[j]) in rooms
      {
        var candidate := Spell(draws[i]);
        if candidate !in rooms {
          return Some(candidate);
        }
        i := i + 1;
      }
      return None;
    }

    /** The controller page's room creation: a fresh code mapped to a room
        with no controller and no receivers. */
    method CreateRoom(draws: seq<Draw>) returns (code: Option<string>)
      requires Valid()
      modifies this
      ensures Valid() && groups == old(groups)
      ensures old(AllSubscribed()) ==> AllSubscribed()
      ensures code.Some? ==>
        && IsRoomCode(code.value)
        && code.value !in old(rooms)
        && (exists k :: 0 <= k < |draws| && code.value == Spell(draws[k]) &&
              forall j :: 0 <= j < k ==> Spell(draws[j]) in old(rooms))
        && rooms == old(rooms)[code.value := EmptyRoom]
        && order == old(order) + [code.value]
      ensures code.None? ==>
        && (forall j :: 0 <= j < |draws| ==> Spell(draws[j]) in old(rooms))
        && rooms == old(rooms) && order == old(order)
    {
      code := GenerateRoomCode(draws);
      if code.Some? {
        rooms := rooms[code.value := EmptyRoom];
        order := order + [code.value];
      }
    }

    /** `controller_join`: the caller becomes the controller of the room
        with exactly this code and is told its receiver count. */
    method HandleControllerJoin(sid: Sid, roomCode: string) returns (out: seq<OutEvent>)
      requires Valid()
      modifies this
      ensures Valid() && order == old(order)
      ensures old(AllSubscribed()) ==> AllSubscribed()
      ensures roomCode !in old(rooms) ==> rooms == old(rooms) && groups == old(groups) && out == []
      ensures roomCode in old(rooms) ==>
        && rooms == old(rooms)[roomCode := Room(Some(sid), old(rooms)[roomCode].receivers)]
        && groups == old(groups) + {(roomCode, sid)}
        && out == [Out(ReceiverUpdate(|old(rooms)[roomCode].receivers|), Self)]
      ensures Upper(roomCode) != roomCode ==> out == [] && rooms == old(rooms)
    {
      if roomCode in rooms {
        var room := rooms[roomCode];
        UpperOfRoomCode(roomCode);
        rooms := rooms[roomCode := room.(controller := Some(sid))];
        groups := groups + {(roomCode, sid)};
        out := [Out(ReceiverUpdate(|room.receivers|), Self)];
      } else {
        out := [];
      }
    }

    /** `receiver_join`: the upper-cased code must name a room; the caller is
        appended to its receivers (again, if already there), is told the
        code, and an attached controller is told the new count. */
    method HandleReceiverJoin(sid: Sid, roomCode: string) returns (out: seq<OutEvent>)
      requires Valid()
      modifies this
      ensures Valid() && order == old(order)
      ensures old(AllSubscribed()) ==> AllSubscribed()
      ensures Upper(roomCode) !in old(rooms) ==>
        rooms == old(rooms) && groups == old(groups) && out == [Out(JoinError(InvalidRoomCode), Self)]
      ensures Upper(roomCode) in old(rooms) ==>
        var code := Upper(roomCode);
        var r := old(rooms)[code];
        && rooms == old(rooms)[code := Room(r.controller, r.receivers + [sid])]
        && |rooms[code].receivers| == |r.receivers| + 1
        && multiset(rooms[code].receivers)[sid] == multiset(r.receivers)[sid] + 1
        && groups == old(groups) + {(code, sid)}
        && out == [Out(JoinSuccess(code), Self)] +
             (if Attached(r) then [Out(ReceiverUpdate(|r.receivers| + 1), Conn(r.controller.value))] else [])
    {
      var code := Upper(roomCode);
      if code !in rooms {
        out := [Out(JoinError(InvalidRoomCode), Self)];
        return;
      }
      groups := groups + {(code, sid)};
      var room := rooms[code];
      var receivers := room.receivers + [sid];
      rooms := rooms[code := room.(receivers := receivers)];
      out := [Out(JoinSuccess(code), Self)];
      if Attached(room) {
        out := out + [Out(ReceiverUpdate(|receivers|), Conn(room.controller.value))];
      }
    }

    /** `receiver_leave`: with exactly this code, a listed caller leaves the
        group and one of its occurrences leaves the receivers; an attached
        controller is told the new count. */
    method HandleReceiverLeave(sid: Sid, roomCode: string) returns (out: seq<OutEvent>)
      requires Valid()
      modifies this
      ensures Valid() && order == old(order)
      ensures !(roomCode in old(rooms) && sid in old(rooms)[roomCode].receivers) ==>
        rooms == old(rooms) && groups == old(groups) && out == []
      ensures roomCode in old(rooms) && sid in old(rooms)[roomCode].receivers ==>
        var r := old(rooms)[roomCode];
        var rest := RemoveFirst(r.receivers, sid);
        && rooms == old(rooms)[roomCode := Room(r.controller, rest)]
        && |rest| == |r.receivers| - 1
        && multiset(rest) == multiset(r.receivers) - multiset{sid}
        && groups == old(groups) - {(roomCode, sid)}
        && out == (if Attached(r) then [Out(ReceiverUpdate(|rest|), Conn(r.controller.value))] else [])
      ensures old(AllSubscribed()) && (roomCode in old(rooms) ==> multiset(old(rooms)[roomCode].receivers)[sid] <= 1) ==>
        AllSubscribed()
      ensures roomCode in old(rooms) && multiset(old(rooms)[roomCode].receivers)[sid] >= 2 ==>
        sid in rooms[roomCode].receivers && (roomCode, sid) !in groups
    {
      out := [];
      if roomCode in rooms && sid in rooms[roomCode].receivers {
        groups := groups - {(roomCode, sid)};
        var room := rooms[roomCode];
        var receivers := RemoveFirst(room.receivers, sid);
        RemoveFirstCounts(room.receivers, sid);
        assert multiset(receivers)[sid] == multiset(room.receivers)[sid] - 1;
        rooms := rooms[roomCode := room.(receivers := receivers)];
        if Attached(room) {
          out := [Out(ReceiverUpdate(|receivers|), Conn(room.controller.value))];
        }
        if old(AllSubscribed()) && multiset(room.receivers)[sid] <= 1 {
          forall c, s | c in rooms && s in rooms[c].receivers ensures (c, s) in groups {
            if c == roomCode {
              assert multiset(receivers)[s] > 0;
              assert s in room.receivers;
            }
          }
        }
      }
    }

    /** `play_sound`: only the room's controller triggers playback; the
        command goes to the room's group without echo to the sender. */
    method HandlePlaySound(sid: Sid, roomCode: string) returns (out: seq<OutEvent>)
      ensures |out| <= 1
      ensures out != [] <==> roomCode in rooms && Controls(rooms[roomCode], sid)
      ensures forall e :: e in out ==> e == Out(PlayCommand, Group(roomCode, Some(sid)))
      ensures forall m ::
                Received(out, sid, groups, PlayCommand, m) ==
                (if roomCode in rooms && Controls(rooms[roomCode], sid) && (roomCode, m) in groups && m != sid then 1 else 0)
    {
      if roomCode in rooms && rooms[roomCode].controller == Some(sid) {
        out := [Out(PlayCommand, Group(roomCode, Some(sid)))];
      } else {
        out := [];
      }
    }

    /** The body of the disconnect scan for one room: a room `sid` controls
        is closed and deleted; otherwise one occurrence of `sid` is dropped
        from its receivers and an attached controller is told the new count. */
    method ScanRoom(code: string, sid: Sid) returns (emitted: seq<OutEvent>)
      requires code in rooms
      modifies this`rooms
      ensures rooms == if Controls(old(rooms)[code], sid) then old(rooms) - {code}
                       else old(rooms)[code := Dropped(old(rooms)[code], sid)]
      ensures emitted == StepEvents(code, old(rooms)[code], sid)
    {
      var room := rooms[code];
      emitted := [];
      if room.controller == Some(sid) {
        emitted := [Out(RoomClosed, Group(code, None))];
        rooms := rooms - {code};
      } else if sid in room.receivers {
        var receivers := RemoveFirst(room.receivers, sid);
        rooms := rooms[code := room.(receivers := receivers)];
        if Attached(room) {
          emitted := [Out(ReceiverUpdate(|receivers|), Conn(room.controller.value))];
        }
      }
    }

    /** The disconnect handler: scans every room in insertion order, closing
        the rooms `sid` controls and dropping one occurrence of `sid` from
        the receivers of every other room that lists it. */
    method HandleDisconnect(sid: Sid) returns (out: seq<OutEvent>)
      requires Valid()
      modifies this
      ensures Valid() && groups == old(groups)
      ensures old(AllSubscribed()) ==> AllSubscribed()
      ensures rooms == AfterDisconnect(old(rooms), sid)
      ensures order == Survivors(old(order), old(rooms), sid)
      ensures out == ScanEvents(old(order), old(rooms), sid)
    {
      ghost var before := rooms;
      var snapshot := order;
      var kept: seq<string> := [];
      out := [];
      var i := 0;
      while i < |snapshot|
        invariant 0 <= i <= |snapshot|
        invariant groups == old(groups)
        invariant out == ScanEvents(snapshot[..i], before, sid)
        invariant kept == Survivors(snapshot[..i], before, sid)
        invariant rooms == Partial(snapshot[..i], before, sid)
      {
        var code := snapshot[i];
        ScanStep(snapshot, i, before, sid);
        var closes := rooms[code].controller == Some(sid);
        var emitted := ScanRoom(code, sid);
        out := out + emitted;
        if !closes {
          kept := kept + [code];
        }
        i := i + 1;
      }
      assert snapshot[..i] == snapshot;
      PartialDone(snapshot, before, sid);
      SurvivorsAreKeys(snapshot, before, sid);
      if old(AllSubscribed()) {
        AfterDisconnectSubscribed(before, groups, sid);
      }
      order := kept;
    }
  }

  /** A whole session: room AB12C3 is created, its
      controller attaches, two receivers join (one typing the code in lower
      case, one after a mistyped code), the controller plays, and then drops. */
  method Session(controller: Sid, first: Sid, second: Sid)
    requires controller != "" && first != second && controller != first && controller != second
  {
    var registry := new Registry();
    var draw: Draw := [0, 1, 27, 28, 2, 29];
    assert Spell(draw) == "AB12C3";
    var code := registry.CreateRoom([draw]);
    assert [draw][0] == draw;
    assert code.Some?;
    assert code == Some("AB12C3");
    assert registry.rooms == map["AB12C3" := EmptyRoom];
    AttachController(registry, controller, first, second);
  }

  /** The controller attaches and is told that no receiver has joined yet. */
  method AttachController(registry: Registry, controller: Sid, first: Sid, second: Sid)
    requires controller != "" && first != second && controller != first && controller != second
    requires registry.Valid() && registry.order == ["AB12C3"]
    requires registry.rooms == map["AB12C3" := EmptyRoom] && registry.groups == {}
    modifies registry
  {
    var out := registry.HandleControllerJoin(controller, "AB12C3");
    assert out == [Out(ReceiverUpdate(0), Self)];

    assert registry.rooms == map["AB12C3" := Room(Some(controller), [])];
    assert registry.groups == {("AB12C3", controller)};
    FirstReceiverJoins(registry, controller, first, second);
  }

  /** The first receiver types the code in lower case. */
  method FirstReceiverJoins(registry: Registry, controller: Sid, first: Sid, second: Sid)
    requires controller != "" && first != second && controller != first && controller != second
    requires registry.Valid() && registry.order == ["AB12C3"]
    requires registry.rooms == map["AB12C3" := Room(Some(controller), [])]
    requires registry.groups == {("AB12C3", controller)}
    modifies registry
  {
    assert Upper("ab12c3") == "AB12C3";
    var out := registry.HandleReceiverJoin(first, "ab12c3");
    assert [] + [first] == [first];
    assert out == [Out(JoinSuccess("AB12C3"), Self), Out(ReceiverUpdate(1), Conn(controller))];
    assert registry.rooms == map["AB12C3" := Room(Some(controller), [first])];
    SecondReceiverJoins(registry, controller, first, second);
  }

  /** The second receiver mistypes the code, then joins. */
  method SecondReceiverJoins(registry: Registry, controller: Sid, first: Sid, second: Sid)
    requires controller != "" && first != second && controller != first && controller != second
    requires registry.Valid() && registry.order == ["AB12C3"]
    requires registry.rooms == map["AB12C3" := Room(Some(controller), [first])]
    requires registry.groups == {("AB12C3", controller), ("AB12C3", first)}
    modifies registry
  {
    assert Upper("ZZZZZZ") == "ZZZZZZ";
    var out := registry.HandleReceiverJoin(second, "ZZZZZZ");
    assert out == [Out(JoinError("Invalid room code"), Self)];
    assert Upper("AB12C3") == "AB12C3";
    out := registry.HandleReceiverJoin(second, "AB12C3");
    assert out == [Out(JoinSuccess("AB12C3"), Self), Out(ReceiverUpdate(2), Conn(controller))];
    assert [first] + [second] == [first, second];
    assert registry.rooms == map["AB12C3" := Room(Some(controller), [first, second])];
    PlayAndClose(registry, controller, first, second);
  }

  /** The end of the session: only the controller's play reaches the
      receivers, and once the controller drops the room is gone. */
  method PlayAndClose(registry: Registry, controller: Sid, first: Sid, second: Sid)
    requires controller != "" && first != second && controller != first && controller != second
    requires registry.Valid() && registry.order == ["AB12C3"]
    requires registry.rooms == map["AB12C3" := Room(Some(controller), [first, second])]
    requires registry.groups == {("AB12C3", controller), ("AB12C3", first), ("AB12C3", second)}
    modifies registry
  {
    var out := registry.HandlePlaySound(controller, "AB12C3");
    assert Received(out, controller, registry.groups, PlayCommand, first) == 1;
    assert Received(out, controller, registry.groups, PlayCommand, second) == 1;
    assert Received(out, controller, registry.groups, PlayCommand, controller) == 0;
    out := registry.HandlePlaySound(first, "AB12C3");
    assert out == [];

    ghost var before := registry.rooms;
    ghost var groups := registry.groups;
    out := registry.HandleDisconnect(controller);
    assert registry.order == [];
    RoomClosedRecipients(["AB12C3"], before, groups, controller, first);
    assert Received(out, controller, groups, RoomClosed, first) > 0;
    assert "AB12C3" !in registry.rooms;
    out := registry.HandleReceiverJoin(first, "AB12C3");
    assert out == [Out(JoinError("Invalid room code"), Self)];
  }
}
