/** The server's table of rooms, updated in place. */
module AppStore {
  import opened Data
  import opened RoomStore
  import opened AppModel
  import RoomModel

  ghost function RoomModels(rooms: map<nat, RoomState>): map<nat, RoomModel.Room>
    reads rooms.Values
  {
    map id | id in rooms :: rooms[id].Model()
  }

  lemma RoomModelsPut(rooms: map<nat, RoomState>, id: nat, room: RoomState)
    ensures RoomModels(rooms[id := room]) == RoomModels(rooms)[id := room.Model()]
    ensures RoomModels(rooms - {id}) == RoomModels(rooms) - {id}
  {
  }

  ghost predicate DistinctRooms(rooms: map<nat, RoomState>) {
    forall a, b | a in rooms && b in rooms && a != b :: rooms[a] != rooms[b]
  }

  lemma DistinctPut(rooms: map<nat, RoomState>, id: nat, room: RoomState)
    requires DistinctRooms(rooms) && room !in rooms.Values
    ensures DistinctRooms(rooms[id := room])
  {
  }

  twostate lemma RoomModelsKept(rooms: map<nat, RoomState>)
    requires forall id | id in rooms :: unchanged(rooms[id])
    ensures RoomModels(rooms) == old(RoomModels(rooms))
  {
  }

  class AppState {
    var rooms: map<nat, RoomState>
    var nextRoomId: nat

    /** Rooms are distinct objects, and every id in use was handed out before. */
    ghost predicate Valid()
      reads this, rooms.Values
    {
      && (forall id | id in rooms :: rooms[id].Valid() && id < nextRoomId)
      && DistinctRooms(rooms)
    }

    ghost function Model(): (app: App)
      reads this, rooms.Values
      ensures Valid() ==> ValidApp(app)
    {
      App(RoomModels(rooms), nextRoomId)
    }

    ghost function Footprint(roomId: nat): set<object>
      reads this
    {
      if roomId in rooms then {rooms[roomId]} else {}
    }

    constructor ()
      ensures Valid() && Model() == FRESH_APP
    {
      rooms, nextRoomId := map[], 1;
    }

    method CreateRoom() returns (roomId: nat)
      requires Valid()
      modifies this
      ensures Valid() && roomId in rooms && fresh(rooms[roomId]) && rooms == old(rooms)[roomId := rooms[roomId]]
      ensures (Model(), Created(roomId)) == Perform(old(Model()), AppModel.CreateRoom)
    {
      roomId := nextRoomId;
      var room := new RoomState();
      Register(room);
    }

    method Register(room: RoomState)
      requires Valid() && room !in rooms.Values
      requires room.Valid() && room.Model() == RoomModel.FRESH_ROOM
      modifies this
      ensures Valid() && rooms == old(rooms)[old(nextRoomId) := room]
      ensures Model() == Perform(old(Model()), AppModel.CreateRoom).0
    {
      ghost var others, id := rooms, nextRoomId;
      DistinctPut(rooms, id, room);
      rooms := rooms[nextRoomId := room];
      nextRoomId := nextRoomId + 1;
      RoomModelsKept(others);
      RoomModelsPut(others, id, room);
      assert RoomModels(rooms) == old(RoomModels(rooms))[id := RoomModel.FRESH_ROOM];
    }

    method DeleteRoom(roomId: nat) returns (res: Result<(), StateError>)
      requires Valid()
      modifies this
      ensures Valid() && rooms.Values <= old(rooms.Values)
      ensures (Model(), AsReply(res)) == Perform(old(Model()), AppModel.DeleteRoom(roomId))
    {
      if roomId in rooms {
        ghost var others, before := rooms, RoomModels(rooms);
        rooms := rooms - {roomId};
        assert RoomModels(others) == before;
        RoomModelsPut(others, roomId, others[roomId]);
        res := Ok(());
      } else {
        res := Err(RoomNotFound);
      }
    }

    method SetFragment(roomId: nat, container: string, key: string, value: Value)
      returns (res: Result<(), StateError>)
      requires Valid()
      modifies Footprint(roomId)
      ensures Valid()
      ensures (Model(), AsReply(res))
           == Perform(old(Model()), OnRoom(roomId, RoomModel.Set(container, key, value)))
    {
      if roomId !in rooms {
        return Err(RoomNotFound);
      }
      res := rooms[roomId].SetFragment(container, key, value);
      assert Model().rooms == old(Model().rooms)[roomId := rooms[roomId].Model()];
    }

    method DelFragment(roomId: nat, container: string, key: string) returns (res: Result<(), StateError>)
      requires Valid()
      modifies Footprint(roomId)
      ensures Valid()
      ensures (Model(), AsReply(res)) == Perform(old(Model()), OnRoom(roomId, RoomModel.Del(container, key)))
    {
      if roomId !in rooms {
        return Err(RoomNotFound);
      }
      res := rooms[roomId].DelFragment(container, key);
      assert Model().rooms == old(Model().rooms)[roomId := rooms[roomId].Model()];
    }

    method TxBegin(roomId: nat) returns (res: Result<(), StateError>)
      requires Valid()
      modifies Footprint(roomId)
      ensures Valid()
      ensures (Model(), AsReply(res)) == Perform(old(Model()), OnRoom(roomId, RoomModel.Begin))
    {
      if roomId !in rooms {
        return Err(RoomNotFound);
      }
      res := rooms[roomId].TxBegin();
      assert Model().rooms == old(Model().rooms)[roomId := rooms[roomId].Model()];
    }

    method TxEnd(roomId: nat) returns (res: Result<(), StateError>)
      requires Valid()
      modifies Footprint(roomId)
      ensures Valid()
      ensures (Model(), AsReply(res)) == Perform(old(Model()), OnRoom(roomId, RoomModel.End))
    {
      if roomId !in rooms {
        return Err(RoomNotFound);
      }
      res := rooms[roomId].TxEnd();
      assert Model().rooms == old(Model().rooms)[roomId := rooms[roomId].Model()];
    }

    method TxAbort(roomId: nat) returns (res: Result<(), StateError>)
      requires Valid()
      modifies Footprint(roomId)
      ensures Valid()
      ensures (Model(), AsReply(res)) == Perform(old(Model()), OnRoom(roomId, RoomModel.Abort))
    {
      if roomId !in rooms {
        return Err(RoomNotFound);
      }
      res := rooms[roomId].TxAbort();
      assert Model().rooms == old(Model().rooms)[roomId := rooms[roomId].Model()];
    }

    method RoomVersion(roomId: nat) returns (res: Result<nat, StateError>)
      requires Valid()
      ensures res == if roomId in Model().rooms then Ok(RoomModel.Counter(Model().rooms[roomId]))
                     else Err(RoomNotFound)
    {
      if roomId !in rooms {
        return Err(RoomNotFound);
      }
      res := Ok(rooms[roomId].roomCounter);
    }

    method GetFragment(roomId: nat, container: string, key: string) returns (res: Result<(Value, nat), StateError>)
      requires Valid()
      ensures res == if roomId in Model().rooms then RoomModel.Fragment(Model().rooms[roomId], container, key)
                     else Err(RoomNotFound)
    {
      if roomId !in rooms {
        return Err(RoomNotFound);
      }
      res := rooms[roomId].GetFragment(container, key);
    }

    method GetInfo(roomId: nat) returns (res: Result<RoomModel.RoomInfo, StateError>)
      requires Valid()
      ensures res == if roomId in Model().rooms then Ok(RoomModel.InfoOf(roomId, Model().rooms[roomId]))
                     else Err(RoomNotFound)
      ensures res.Ok? ==> res.value.containerCount <= res.value.fragmentCount <= res.value.roomCounter
    {
      if roomId !in rooms {
        return Err(RoomNotFound);
      }
      var info := rooms[roomId].Info(roomId);
      res := Ok(info);
    }

    method RoomSnapshot(roomId: nat, allowed: set<string>) returns (res: Option<RoomView>)
      requires Valid()
      ensures res == if roomId in Model().rooms then
                       var room := Model().rooms[roomId];
                       Some(RoomView(RoomModel.Counter(room), RoomModel.Snapshot(room, allowed)))
                     else None
    {
      if roomId !in rooms {
        return None;
      }
      var view := rooms[roomId].Snapshot(allowed);
      res := Some(view);
    }

    method RoomDelta(roomId: nat, since: nat, allowed: set<string>) returns (res: Option<RoomView>)
      requires Valid()
      ensures res == if roomId in Model().rooms then
                       var room := Model().rooms[roomId];
                       Some(RoomView(RoomModel.Counter(room), RoomModel.Delta(room, since, allowed)))
                     else None
    {
      if roomId !in rooms {
        return None;
      }
      var view := rooms[roomId].Delta(since, allowed);
      res := Some(view);
    }

    /** The ids in use, in strictly ascending order. */
    method ListRooms() returns (ids: seq<nat>)
      requires Valid()
      ensures Ascending(ids)
      ensures forall id :: id in ids <==> id in Model().rooms
    {
      ids := Sorted(rooms.Keys);
    }
  }

  /** The sort of the collected ids. */
  method Sorted(keys: set<nat>) returns (ids: seq<nat>)
    ensures Ascending(ids)
    ensures forall id :: id in ids <==> id in keys
  {
    ids := [];
    var todo := keys;
    while todo != {}
      invariant todo <= keys
      invariant Ascending(ids)
      invariant forall id :: id in ids <==> id in keys && id !in todo
      invariant forall id, later | id in ids && later in todo :: id < later
      decreases |todo|
    {
      LeastExists(todo);
      var least :| IsLeast(least, todo);
      AscendingAppend(ids, least);
      todo := todo - {least};
      ids := ids + [least];
    }
  }

  lemma AscendingAppend(ids: seq<nat>, last: nat)
    requires Ascending(ids) && forall id | id in ids :: id < last
    ensures Ascending(ids + [last])
  {
    assert forall i | 0 <= i < |ids| :: ids[i] in ids;
  }

  predicate IsLeast(least: nat, ids: set<nat>) {
    least in ids && forall id | id in ids :: least <= id
  }

  lemma {:induction false} LeastExists(ids: set<nat>)
    requires ids != {}
    ensures exists least :: IsLeast(least, ids)
    decreases ids
  {
    var x :| x in ids;
    if ids == {x} {
      assert IsLeast(x, ids);
    } else {
      LeastExists(ids - {x});
      var y :| IsLeast(y, ids - {x});
      assert forall id | id in ids :: id == x || id in ids - {x};
      assert IsLeast(if x <= y then x else y, ids);
    }
  }
}
