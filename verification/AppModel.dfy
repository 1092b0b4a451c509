/** All rooms of the server as values, and what holds over every run of commands. */
module AppModel {
  import opened Data
  import opened RoomModel

  datatype App = App(rooms: map<nat, Room>, nextRoomId: nat)

  datatype AppOp =
    | CreateRoom
    | DeleteRoom(id: nat)
    | OnRoom(id: nat, op: RoomOp)

  datatype Reply = Created(id: nat) | Done | Failed(error: StateError)

  const FRESH_APP := App(map[], 1)

  function AsReply(res: Result<(), StateError>): Reply {
    match res
    case Ok(_) => Done
    case Err(e) => Failed(e)
  }

  ghost predicate ValidApp(app: App) {
    forall id | id in app.rooms :: id < app.nextRoomId
  }

  ghost function Perform(app: App, op: AppOp): (App, Reply) {
    match op
    case CreateRoom =>
      (App(app.rooms[app.nextRoomId := FRESH_ROOM], app.nextRoomId + 1), Created(app.nextRoomId))
    case DeleteRoom(id) =>
      if id in app.rooms then (app.(rooms := app.rooms - {id}), Done) else (app, Failed(RoomNotFound))
    case OnRoom(id, roomOp) =>
      if id in app.rooms then
        var (room, res) := Apply(app.rooms[id], roomOp);
        (app.(rooms := app.rooms[id := room]), AsReply(res))
      else (app, Failed(RoomNotFound))
  }

  ghost function RunApp(app: App, ops: seq<AppOp>): App
    decreases ops
  {
    if ops == [] then app else RunApp(Perform(app, ops[0]).0, ops[1..])
  }

  /** The ids returned by the room creations of a run, in order. */
  ghost function CreatedIds(app: App, ops: seq<AppOp>): seq<nat>
    decreases ops
  {
    if ops == [] then []
    else
      var (next, reply) := Perform(app, ops[0]);
      var later := CreatedIds(next, ops[1..]);
      if reply.Created? then [reply.id] + later else later
  }

  /** The ids that a run deletes successfully. */
  ghost function DeletedIds(app: App, ops: seq<AppOp>): set<nat>
    decreases ops
  {
    if ops == [] then {}
    else
      var (next, reply) := Perform(app, ops[0]);
      (if ops[0].DeleteRoom? && reply.Done? then {ops[0].id} else {}) + DeletedIds(next, ops[1..])
  }

  /** The operations addressed to room `id` while it exists. */
  ghost function OpsFor(app: App, ops: seq<AppOp>, id: nat): seq<RoomOp>
    decreases ops
  {
    if ops == [] then []
    else
      var later := OpsFor(Perform(app, ops[0]).0, ops[1..], id);
      if ops[0].OnRoom? && ops[0].id == id && id in app.rooms then [ops[0].op] + later else later
  }

  ghost predicate Ascending(ids: seq<nat>) {
    forall i, j | 0 <= i < j < |ids| :: ids[i] < ids[j]
  }

  lemma AscendingCons(first: nat, later: seq<nat>)
    requires Ascending(later) && forall id | id in later :: first < id
    ensures Ascending([first] + later)
  {
    assert forall j | 0 <= j < |later| :: later[j] in later;
  }

  /** Ids are handed out in strictly ascending order, so no id is ever handed out twice. */
  lemma {:induction false} IdsAscend(app: App, ops: seq<AppOp>)
    requires ValidApp(app)
    ensures ValidApp(RunApp(app, ops))
    ensures app.nextRoomId <= RunApp(app, ops).nextRoomId
    ensures Ascending(CreatedIds(app, ops))
    ensures forall id | id in CreatedIds(app, ops) :: app.nextRoomId <= id < RunApp(app, ops).nextRoomId
    decreases ops
  {
    if ops != [] {
      var (next, reply) := Perform(app, ops[0]);
      var later := CreatedIds(next, ops[1..]);
      IdsAscend(next, ops[1..]);
      if reply.Created? {
        AscendingCons(reply.id, later);
      }
    }
  }

  /** Ids are handed out without gaps, from 1 on when the server starts. */
  lemma {:induction false} IdsCount(app: App, ops: seq<AppOp>)
    ensures forall k | 0 <= k < |CreatedIds(app, ops)| :: CreatedIds(app, ops)[k] == app.nextRoomId + k
    ensures app == FRESH_APP ==> forall k | 0 <= k < |CreatedIds(app, ops)| :: CreatedIds(app, ops)[k] == 1 + k
    decreases ops
  {
    if ops != [] {
      IdsCount(Perform(app, ops[0]).0, ops[1..]);
    }
  }

  /** The rooms that exist are exactly those created and not deleted since. */
  lemma {:induction false} LiveRooms(app: App, ops: seq<AppOp>, id: nat)
    requires ValidApp(app)
    ensures id in RunApp(app, ops).rooms
       <==> (id in app.rooms || id in CreatedIds(app, ops)) && id !in DeletedIds(app, ops)
    decreases ops
  {
    if ops != [] {
      var (next, reply) := Perform(app, ops[0]);
      LiveRooms(next, ops[1..], id);
      IdsAscend(next, ops[1..]);
      if ops[0] == DeleteRoom(id) && reply.Done? {
        GoneForever(next, ops[1..], id);
      }
    }
  }

  /** A room that is gone stays gone: its id is below every id still to be handed out. */
  lemma {:induction false} GoneForever(app: App, ops: seq<AppOp>, id: nat)
    requires id !in app.rooms && id < app.nextRoomId
    ensures id !in RunApp(app, ops).rooms
    decreases ops
  {
    if ops != [] {
      GoneForever(Perform(app, ops[0]).0, ops[1..], id);
    }
  }

  /**
    A room depends on nothing but the operations addressed to it since it was created:
    operations on other rooms, their creation and deletion leave it unchanged.
   */
  lemma {:induction false} RoomsAreIndependent(app: App, ops: seq<AppOp>, id: nat)
    requires ValidApp(app)
    requires id in RunApp(app, ops).rooms
    ensures RunApp(app, ops).rooms[id]
         == Run(if id in app.rooms then app.rooms[id] else FRESH_ROOM, OpsFor(app, ops, id))
    decreases ops
  {
    if ops != [] {
      var next := Perform(app, ops[0]).0;
      if ops[0] == DeleteRoom(id) && id in app.rooms {
        GoneForever(next, ops[1..], id);
      } else {
        RoomsAreIndependent(next, ops[1..], id);
        if ops[0].OnRoom? && ops[0].id == id && id in app.rooms {
          RunConcat(app.rooms[id], [ops[0].op], OpsFor(next, ops[1..], id));
          assert Run(app.rooms[id], [ops[0].op]) == Run(Apply(app.rooms[id], ops[0].op).0, []);
        }
      }
    }
  }
}
