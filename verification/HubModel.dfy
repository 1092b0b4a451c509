/**
  Fan-out of room updates to subscribers, as steps on values: bounded queues, a client cap,
  container filtering, and removal of every client that cannot be sent to.
 */
module HubModel {
  import opened Data

  type ClientId = string

  const MAX_CLIENTS := 200
  const MAX_PENDING := 256

  /** What command processing hands to the hub. */
  datatype RoomUpdate = RoomUpdate(roomId: nat, container: string, key: string, value: Option<Value>, roomCounter: nat)

  /** What a subscriber receives. */
  datatype Event =
    | CounterEvent(roomId: nat, roomCounter: nat)
    | KeyEvent(roomId: nat, roomCounter: nat, container: string, key: string, value: Value)
    | DeletedEvent(roomId: nat, roomCounter: nat, container: string, key: string)

  /** An outbound channel: what is queued, what the receiver took, and whether the receiver lives. */
  datatype Channel = Channel(queue: seq<Event>, received: seq<Event>, open: bool) {
    /** Everything ever put into the channel, unless the receiver died with events queued. */
    function Sent(): seq<Event> { received + queue }
  }

  const NEW_CHANNEL := Channel([], [], true)

  function Taken(ch: Channel): Channel
    requires ch.queue != []
  {
    ch.(queue := ch.queue[1..], received := ch.received + [ch.queue[0]])
  }

  function Closed(ch: Channel): Channel {
    ch.(queue := [], open := false)
  }

  datatype Hub = Hub(rooms: map<nat, map<ClientId, set<string>>>, channels: map<ClientId, Channel>)

  const EMPTY_HUB := Hub(map[], map[])

  datatype HubAct =
    | Add(roomId: nat, id: ClientId, allowed: set<string>)
    | Remove(roomId: nat, id: ClientId)
    | RemoveRoom(roomId: nat)
    | Broadcast(update: RoomUpdate, refused: set<ClientId>)
    | Receive(id: ClientId)
    | Hangup(id: ClientId)

  function EventOf(u: RoomUpdate): Event {
    if u.container == STAR && u.key == STAR then CounterEvent(u.roomId, u.roomCounter)
    else if u.value.Some? then KeyEvent(u.roomId, u.roomCounter, u.container, u.key, u.value.value)
    else DeletedEvent(u.roomId, u.roomCounter, u.container, u.key)
  }

  predicate Matches(container: string, allowed: set<string>) {
    container == STAR || Allowed(container, allowed)
  }

  predicate EventMatches(e: Event, allowed: set<string>) {
    e.CounterEvent? || Matches(e.container, allowed)
  }

  function Members(h: Hub, roomId: nat): map<ClientId, set<string>> {
    if roomId in h.rooms then h.rooms[roomId] else map[]
  }

  /** The clients that an update is meant for. */
  function Targets(h: Hub, u: RoomUpdate): set<ClientId> {
    set id | id in Members(h, u.roomId) && Matches(u.container, Members(h, u.roomId)[id])
  }

  predicate Accepts(ch: Channel) {
    ch.open && |ch.queue| < MAX_PENDING
  }

  predicate Delivers(h: Hub, u: RoomUpdate, refused: set<ClientId>, id: ClientId) {
    id in Targets(h, u) && id !in refused && id in h.channels && Accepts(h.channels[id])
  }

  predicate Drops(h: Hub, u: RoomUpdate, refused: set<ClientId>, id: ClientId) {
    id in Targets(h, u) && !Delivers(h, u, refused, id)
  }

  function ChannelAfter(h: Hub, u: RoomUpdate, refused: set<ClientId>, id: ClientId): Channel
    requires id in h.channels
  {
    var ch := h.channels[id];
    if Delivers(h, u, refused, id) then ch.(queue := ch.queue + [EventOf(u)]) else ch
  }

  /** A room without members is not kept. */
  function WithMembers(h: Hub, roomId: nat, members: map<ClientId, set<string>>): Hub {
    h.(rooms := if members == map[] then h.rooms - {roomId} else h.rooms[roomId := members])
  }

  function Step(h: Hub, act: HubAct): Hub {
    match act
    case Add(roomId, id, allowed) =>
      if |Members(h, roomId)| >= MAX_CLIENTS then h
      else Hub(h.rooms[roomId := Members(h, roomId)[id := allowed]], h.channels[id := NEW_CHANNEL])
    case Remove(roomId, id) =>
      WithMembers(h, roomId, Members(h, roomId) - {id})
    case RemoveRoom(roomId) =>
      h.(rooms := h.rooms - {roomId})
    case Broadcast(u, refused) =>
      var members := Members(h, u.roomId);
      var channels := map id | id in h.channels :: ChannelAfter(h, u, refused, id);
      WithMembers(h.(channels := channels), u.roomId,
                  map id | id in members && !Drops(h, u, refused, id) :: members[id])
    case Receive(id) =>
      if id in h.channels && h.channels[id].open && h.channels[id].queue != [] then
        h.(channels := h.channels[id := Taken(h.channels[id])])
      else h
    case Hangup(id) =>
      if id in h.channels then h.(channels := h.channels[id := Closed(h.channels[id])]) else h
  }

  function RunHub(h: Hub, acts: seq<HubAct>): Hub
    decreases acts
  {
    if acts == [] then h else RunHub(Step(h, acts[0]), acts[1..])
  }

  /** Client ids are fresh when they are added. */
  ghost predicate FreshIds(h: Hub, acts: seq<HubAct>)
    decreases acts
  {
    acts != [] ==>
      && (acts[0].Add? ==> acts[0].id !in h.channels)
      && FreshIds(Step(h, acts[0]), acts[1..])
  }

  /** The events broadcast to a room during a run that a client with these containers matches. */
  function MatchingEvents(acts: seq<HubAct>, roomId: nat, allowed: set<string>): seq<Event> {
    if acts == [] then []
    else if acts[0].Broadcast? && acts[0].update.roomId == roomId && Matches(acts[0].update.container, allowed) then
      [EventOf(acts[0].update)] + MatchingEvents(acts[1..], roomId, allowed)
    else MatchingEvents(acts[1..], roomId, allowed)
  }

  ghost predicate InRoom(h: Hub, roomId: nat, id: ClientId) {
    roomId in h.rooms && id in h.rooms[roomId]
  }

  ghost predicate OnlyMatching(ch: Channel, roomId: nat, allowed: set<string>) {
    forall e | e in ch.Sent() :: e.roomId == roomId && EventMatches(e, allowed)
  }

  /** Rooms hold 1 to 200 clients, and a client is in one room only. */
  ghost predicate ValidRooms(h: Hub) {
    && (forall r | r in h.rooms :: 1 <= |h.rooms[r]| <= MAX_CLIENTS)
    && (forall r, r', id | InRoom(h, r, id) && InRoom(h, r', id) :: r == r')
  }

  /** Queues hold at most 256 events, and a client was only sent what it may see of its room. */
  ghost predicate ValidChannels(h: Hub) {
    && (forall id | id in h.channels :: |h.channels[id].queue| <= MAX_PENDING)
    && (forall r, id | InRoom(h, r, id) :: id in h.channels && OnlyMatching(h.channels[id], r, h.rooms[r][id]))
  }

  ghost predicate ValidHub(h: Hub) {
    ValidRooms(h) && ValidChannels(h)
  }

  // ---------------------------------------------------------------- occupancy

  lemma SmallerMembers(members: map<ClientId, set<string>>, kept: map<ClientId, set<string>>)
    requires kept.Keys <= members.Keys
    ensures |kept| <= |members|
  {
    assert |kept.Keys| <= |members.Keys| by { SubsetSize(kept.Keys, members.Keys); }
  }

  lemma {:induction false} SubsetSize(a: set<ClientId>, b: set<ClientId>)
    requires a <= b
    ensures |a| <= |b|
    decreases a
  {
    if a != {} {
      var x :| x in a;
      SubsetSize(a - {x}, b - {x});
    }
  }

  /** Only members of `roomId` can leave, and those who stay keep their containers. */
  ghost predicate Shrinks(h: Hub, h': Hub) {
    forall r | r in h'.rooms ::
      r in h.rooms && h'.rooms[r] != map[] && h'.rooms[r].Keys <= h.rooms[r].Keys
      && forall id | id in h'.rooms[r] :: h'.rooms[r][id] == h.rooms[r][id]
  }

  lemma ShrinkingKeepsRooms(h: Hub, h': Hub)
    requires ValidRooms(h) && Shrinks(h, h')
    ensures ValidRooms(h')
  {
    forall r | r in h'.rooms
      ensures 1 <= |h'.rooms[r]| <= MAX_CLIENTS
    {
      SmallerMembers(h.rooms[r], h'.rooms[r]);
      assert h'.rooms[r] != map[];
    }
    forall r, r', id | InRoom(h', r, id) && InRoom(h', r', id)
      ensures r == r'
    {
      assert InRoom(h, r, id) && InRoom(h, r', id);
    }
  }

  lemma BroadcastShrinks(h: Hub, u: RoomUpdate, refused: set<ClientId>)
    requires ValidRooms(h)
    ensures Shrinks(h, Step(h, Broadcast(u, refused)))
    ensures forall r, id | InRoom(Step(h, Broadcast(u, refused)), r, id) :: InRoom(h, r, id)
  {
    assert forall r | r in h.rooms :: h.rooms[r] != map[];
  }

  lemma BroadcastChannel(h: Hub, u: RoomUpdate, refused: set<ClientId>, id: ClientId)
    requires id in h.channels
    ensures var h' := Step(h, Broadcast(u, refused));
      && id in h'.channels
      && h'.channels[id].open == h.channels[id].open
      && h'.channels[id].Sent()
         == h.channels[id].Sent() + (if Delivers(h, u, refused, id) then [EventOf(u)] else [])
      && (|h.channels[id].queue| <= MAX_PENDING ==> |h'.channels[id].queue| <= MAX_PENDING)
  {
    var ch := h.channels[id];
    assert Step(h, Broadcast(u, refused)).channels[id] == ChannelAfter(h, u, refused, id);
    assert ch.received + (ch.queue + [EventOf(u)]) == ch.Sent() + [EventOf(u)];
  }

  lemma BroadcastKeepsValid(h: Hub, u: RoomUpdate, refused: set<ClientId>)
    requires ValidHub(h)
    ensures ValidHub(Step(h, Broadcast(u, refused)))
  {
    var h' := Step(h, Broadcast(u, refused));
    BroadcastShrinks(h, u, refused);
    ShrinkingKeepsRooms(h, h');
    forall id | id in h'.channels
      ensures |h'.channels[id].queue| <= MAX_PENDING
    {
      BroadcastChannel(h, u, refused, id);
    }
    forall r, id | InRoom(h', r, id)
      ensures id in h'.channels && OnlyMatching(h'.channels[id], r, h'.rooms[r][id])
    {
      assert InRoom(h, r, id) && h'.rooms[r][id] == h.rooms[r][id];
      assert OnlyMatching(h.channels[id], r, h.rooms[r][id]);
      BroadcastChannel(h, u, refused, id);
      if Delivers(h, u, refused, id) {
        assert InRoom(h, u.roomId, id);
      }
    }
  }

  lemma AddKeepsValid(h: Hub, roomId: nat, id: ClientId, allowed: set<string>)
    requires ValidHub(h) && id !in h.channels
    ensures ValidHub(Step(h, Add(roomId, id, allowed)))
  {
    if |Members(h, roomId)| < MAX_CLIENTS {
      var h' := Step(h, Add(roomId, id, allowed));
      AddKeepsRooms(h, roomId, id, allowed);
      forall r, x | InRoom(h', r, x)
        ensures x in h'.channels && OnlyMatching(h'.channels[x], r, h'.rooms[r][x])
      {
        assert x == id || InRoom(h, r, x);
      }
    }
  }

  lemma AddKeepsRooms(h: Hub, roomId: nat, id: ClientId, allowed: set<string>)
    requires ValidHub(h) && id !in h.channels && |Members(h, roomId)| < MAX_CLIENTS
    ensures ValidRooms(Step(h, Add(roomId, id, allowed)))
  {
    var h' := Step(h, Add(roomId, id, allowed));
    assert forall r :: !InRoom(h, r, id);
    assert forall r, x | InRoom(h', r, x) :: InRoom(h, r, x) || (r == roomId && x == id);
    assert |h'.rooms[roomId]| == |Members(h, roomId)| + 1;
  }

  /** A step that only moves events within one channel, or loses some, keeps the rest. */
  lemma ChannelStepKeepsValid(h: Hub, id: ClientId, ch: Channel)
    requires ValidHub(h) && id in h.channels
    requires ch.Sent() <= h.channels[id].Sent() && |ch.queue| <= MAX_PENDING
    ensures ValidHub(h.(channels := h.channels[id := ch]))
  {
    var h' := h.(channels := h.channels[id := ch]);
    assert forall r, x :: InRoom(h', r, x) <==> InRoom(h, r, x);
    forall r, x | InRoom(h', r, x)
      ensures OnlyMatching(h'.channels[x], r, h'.rooms[r][x])
    {
      assert OnlyMatching(h.channels[x], r, h.rooms[r][x]);
      assert forall e | e in ch.Sent() :: e in h.channels[id].Sent();
    }
  }

  lemma SentStays(ch: Channel)
    ensures ch.queue != [] ==> (ch.received + [ch.queue[0]]) + ch.queue[1..] == ch.Sent()
    ensures ch.received + [] <= ch.Sent()
  {
  }

  lemma RemovalKeepsValid(h: Hub, h': Hub)
    requires ValidHub(h) && Shrinks(h, h') && h'.channels == h.channels
    ensures ValidHub(h')
  {
    ShrinkingKeepsRooms(h, h');
    forall r, id | InRoom(h', r, id)
      ensures id in h'.channels && OnlyMatching(h'.channels[id], r, h'.rooms[r][id])
    {
      assert InRoom(h, r, id);
    }
  }

  lemma RemoveShrinks(h: Hub, act: HubAct)
    requires ValidRooms(h) && (act.Remove? || act.RemoveRoom?)
    ensures Shrinks(h, Step(h, act)) && Step(h, act).channels == h.channels
  {
    assert forall r | r in h.rooms :: h.rooms[r] != map[];
  }

  lemma RemoveKeepsValid(h: Hub, act: HubAct)
    requires ValidHub(h) && (act.Remove? || act.RemoveRoom?)
    ensures ValidHub(Step(h, act))
  {
    RemoveShrinks(h, act);
    RemovalKeepsValid(h, Step(h, act));
  }

  lemma ReceiveKeepsValid(h: Hub, id: ClientId)
    requires ValidHub(h)
    ensures ValidHub(Step(h, Receive(id)))
    ensures ValidHub(Step(h, Hangup(id)))
  {
    if id in h.channels {
      var ch := h.channels[id];
      SentStays(ch);
      ChannelStepKeepsValid(h, id, Closed(ch));
      if ch.open && ch.queue != [] {
        ChannelStepKeepsValid(h, id, Taken(ch));
      }
    }
  }

  /** In every reachable hub rooms hold 1 to 200 clients, queues at most 256 events, all of them matching. */
  lemma StepKeepsValid(h: Hub, act: HubAct)
    requires ValidHub(h)
    requires act.Add? ==> act.id !in h.channels
    ensures ValidHub(Step(h, act))
  {
    match act {
      case Add(roomId, id, allowed) => AddKeepsValid(h, roomId, id, allowed);
      case Remove(_, _) => RemoveKeepsValid(h, act);
      case RemoveRoom(_) => RemoveKeepsValid(h, act);
      case Broadcast(u, refused) => BroadcastKeepsValid(h, u, refused);
      case Receive(id) => ReceiveKeepsValid(h, id);
      case Hangup(id) => ReceiveKeepsValid(h, id);
    }
  }

  lemma {:induction false} ReachableHubs(h: Hub, acts: seq<HubAct>)
    requires ValidHub(h) && FreshIds(h, acts)
    ensures ValidHub(RunHub(h, acts))
    decreases acts
  {
    if acts != [] {
      StepKeepsValid(h, acts[0]);
      ReachableHubs(Step(h, acts[0]), acts[1..]);
    }
  }

  // ---------------------------------------------------------------- who leaves

  /** A broadcast drops a client: it was meant for it and could not be sent. */
  ghost predicate CannotBeSent(h: Hub, act: HubAct, roomId: nat, id: ClientId)
    requires InRoom(h, roomId, id) && id in h.channels
  {
    && act.Broadcast? && act.update.roomId == roomId && Matches(act.update.container, h.rooms[roomId][id])
    && (id in act.refused || !h.channels[id].open || |h.channels[id].queue| >= 256)
  }

  /**
    A client leaves its room exactly when it is removed, its room is, or an update meant for it
    finds it refused, hung up or with a full queue; clients next to it never make it leave.
   */
  lemma LeavesIff(h: Hub, act: HubAct, roomId: nat, id: ClientId)
    requires ValidHub(h) && InRoom(h, roomId, id)
    requires act.Add? ==> act.id !in h.channels
    ensures id in h.channels
    ensures !InRoom(Step(h, act), roomId, id)
       <==> act == Remove(roomId, id) || act == RemoveRoom(roomId) || CannotBeSent(h, act, roomId, id)
  {
    var h' := Step(h, act);
    if act.Broadcast? && act.update.roomId == roomId {
      var members := Members(h, roomId);
      var kept := map x | x in members && !Drops(h, act.update, act.refused, x) :: members[x];
      assert InRoom(h', roomId, id) <==> id in kept;
    } else if act.Remove? && act.roomId == roomId && act.id != id {
      assert id in Members(h, roomId) - {act.id};
    }
  }

  /** A client comes into a room exactly when it is added and the room has fewer than 200 clients. */
  lemma JoinsIff(h: Hub, act: HubAct, roomId: nat, id: ClientId)
    requires !InRoom(h, roomId, id)
    ensures InRoom(Step(h, act), roomId, id)
       <==> act.Add? && act.roomId == roomId && act.id == id && |Members(h, roomId)| < 200
    ensures InRoom(Step(h, act), roomId, id) ==>
      Step(h, act).rooms[roomId][id] == act.allowed && Step(h, act).channels[id] == Channel([], [], true)
  {
  }

  /** A client that stays keeps its containers, whatever happens around it. */
  lemma StaysWithContainers(h: Hub, act: HubAct, roomId: nat, id: ClientId)
    requires InRoom(h, roomId, id) && InRoom(Step(h, act), roomId, id)
    requires act.Add? ==> act.id != id
    ensures Step(h, act).rooms[roomId][id] == h.rooms[roomId][id]
  {
  }

  // ---------------------------------------------------------------- gap-free delivery

  /** No further event can reach the client. */
  ghost predicate Dead(h: Hub, id: ClientId) {
    id in h.channels && (!h.channels[id].open || forall r :: !InRoom(h, r, id))
  }

  lemma DeadStep(h: Hub, act: HubAct, id: ClientId)
    requires Dead(h, id) && (act.Add? ==> act.id !in h.channels)
    ensures Dead(Step(h, act), id)
    ensures Step(h, act).channels[id].Sent() <= h.channels[id].Sent()
  {
    var h' := Step(h, act);
    if forall r :: !InRoom(h, r, id) {
      forall r
        ensures !InRoom(h', r, id)
      {
        assert !InRoom(h, r, id);
        if act.Add? {
          assert !InRoom(h, act.roomId, id);
        } else if act.Remove? {
          assert !InRoom(h, act.roomId, id);
        } else if act.Broadcast? {
          assert !InRoom(h, act.update.roomId, id);
        }
      }
      if act.Broadcast? {
        assert !InRoom(h, act.update.roomId, id);
      }
    }
  }

  /** Nothing is added once a client has left its room or its receiver is gone. */
  lemma {:induction false} NothingAfterRemoval(h: Hub, acts: seq<HubAct>, id: ClientId)
    requires Dead(h, id) && FreshIds(h, acts)
    ensures Dead(RunHub(h, acts), id)
    ensures RunHub(h, acts).channels[id].Sent() <= h.channels[id].Sent()
    decreases acts
  {
    if acts != [] {
      DeadStep(h, acts[0], id);
      NothingAfterRemoval(Step(h, acts[0]), acts[1..], id);
    }
  }

  lemma EventsOfOne(act: HubAct, roomId: nat, allowed: set<string>)
    ensures MatchingEvents([act], roomId, allowed)
         == if act.Broadcast? && act.update.roomId == roomId && Matches(act.update.container, allowed)
            then [EventOf(act.update)] else []
  {
    assert [act][1..] == [];
  }

  ghost predicate Alive(h: Hub, roomId: nat, id: ClientId) {
    InRoom(h, roomId, id) && id in h.channels && h.channels[id].open
  }

  /** From `h` to `h'` the client was sent a prefix of `events`: all of them, unless it is dead now. */
  ghost predicate SentPrefix(h: Hub, h': Hub, roomId: nat, id: ClientId, events: seq<Event>) {
    && Alive(h, roomId, id)
    && id in h'.channels
    && h'.channels[id].Sent() <= h.channels[id].Sent() + events
    && (if Alive(h', roomId, id) then
          h'.rooms[roomId][id] == h.rooms[roomId][id] && h'.channels[id].Sent() == h.channels[id].Sent() + events
        else Dead(h', id))
  }

  lemma PrefixesChain(h: Hub, h1: Hub, h2: Hub, roomId: nat, id: ClientId, first: seq<Event>, later: seq<Event>)
    requires SentPrefix(h, h1, roomId, id, first)
    requires if Alive(h1, roomId, id) then SentPrefix(h1, h2, roomId, id, later)
             else Dead(h2, id) && h2.channels[id].Sent() <= h1.channels[id].Sent()
    ensures SentPrefix(h, h2, roomId, id, first + later)
  {
    var sent := h.channels[id].Sent();
    assert sent + (first + later) == sent + first + later;
  }

  lemma LiveBroadcast(h: Hub, u: RoomUpdate, refused: set<ClientId>, roomId: nat, id: ClientId)
    requires ValidHub(h) && Alive(h, roomId, id)
    ensures SentPrefix(h, Step(h, Broadcast(u, refused)), roomId, id,
                       MatchingEvents([Broadcast(u, refused)], roomId, h.rooms[roomId][id]))
  {
    var h' := Step(h, Broadcast(u, refused));
    EventsOfOne(Broadcast(u, refused), roomId, h.rooms[roomId][id]);
    BroadcastShrinks(h, u, refused);
    BroadcastChannel(h, u, refused, id);
    assert forall r | InRoom(h, r, id) :: r == roomId;
    if u.roomId != roomId {
      assert !InRoom(h, u.roomId, id);
    }
  }

  /** A step that sends nothing keeps what a live client was sent, or ends its life. */
  ghost predicate Quiet(h: Hub, h': Hub, roomId: nat, id: ClientId) {
    && Alive(h, roomId, id)
    && id in h'.channels && h'.channels[id].Sent() <= h.channels[id].Sent()
    && (if Alive(h', roomId, id) then
          h'.rooms[roomId][id] == h.rooms[roomId][id] && h'.channels[id].Sent() == h.channels[id].Sent()
        else Dead(h', id))
  }

  lemma QuietRemoval(h: Hub, h': Hub, roomId: nat, id: ClientId)
    requires ValidHub(h) && Alive(h, roomId, id)
    requires Shrinks(h, h') && h'.channels == h.channels
    ensures Quiet(h, h', roomId, id)
  {
    forall r | InRoom(h', r, id)
      ensures r == roomId
    {
      assert InRoom(h, r, id);
    }
  }

  lemma QuietChannel(h: Hub, x: ClientId, ch: Channel, roomId: nat, id: ClientId)
    requires Alive(h, roomId, id) && x in h.channels
    requires ch.Sent() <= h.channels[x].Sent() && (ch.open ==> ch.Sent() == h.channels[x].Sent())
    ensures Quiet(h, h.(channels := h.channels[x := ch]), roomId, id)
  {
  }

  lemma QuietReceive(h: Hub, x: ClientId, roomId: nat, id: ClientId)
    requires Alive(h, roomId, id)
    ensures Quiet(h, Step(h, Receive(x)), roomId, id)
    ensures Quiet(h, Step(h, Hangup(x)), roomId, id)
  {
    if x in h.channels {
      var ch := h.channels[x];
      SentStays(ch);
      QuietChannel(h, x, Closed(ch), roomId, id);
      if ch.open && ch.queue != [] {
        QuietChannel(h, x, Taken(ch), roomId, id);
      }
    }
  }

  lemma LiveQuiet(h: Hub, act: HubAct, roomId: nat, id: ClientId)
    requires ValidHub(h) && Alive(h, roomId, id) && !act.Broadcast?
    requires act.Add? ==> act.id !in h.channels
    ensures Quiet(h, Step(h, act), roomId, id)
  {
    match act {
      case Add(_, _, _) =>
      case Remove(_, _) => RemoveShrinks(h, act); QuietRemoval(h, Step(h, act), roomId, id);
      case RemoveRoom(_) => RemoveShrinks(h, act); QuietRemoval(h, Step(h, act), roomId, id);
      case Receive(x) => QuietReceive(h, x, roomId, id);
      case Hangup(x) => QuietReceive(h, x, roomId, id);
    }
  }

  lemma LiveStep(h: Hub, act: HubAct, roomId: nat, id: ClientId)
    requires ValidHub(h) && Alive(h, roomId, id)
    requires act.Add? ==> act.id !in h.channels
    ensures SentPrefix(h, Step(h, act), roomId, id, MatchingEvents([act], roomId, h.rooms[roomId][id]))
  {
    if act.Broadcast? {
      LiveBroadcast(h, act.update, act.refused, roomId, id);
    } else {
      EventsOfOne(act, roomId, h.rooms[roomId][id]);
      LiveQuiet(h, act, roomId, id);
      assert h.channels[id].Sent() + [] == h.channels[id].Sent();
    }
  }

  lemma {:induction false} MatchingConcat(a: seq<HubAct>, b: seq<HubAct>, roomId: nat, allowed: set<string>)
    ensures MatchingEvents(a + b, roomId, allowed)
         == MatchingEvents(a, roomId, allowed) + MatchingEvents(b, roomId, allowed)
  {
    if a == [] {
      assert a + b == b;
    } else {
      assert (a + b)[1..] == a[1..] + b;
      MatchingConcat(a[1..], b, roomId, allowed);
    }
  }

  /**
    What a client has received plus what is queued for it is a prefix of the matching events
    broadcast to its room since it joined, and all of them while it is in the hub and alive.
   */
  lemma {:induction false} GapFree(h: Hub, acts: seq<HubAct>, roomId: nat, id: ClientId)
    requires ValidHub(h) && FreshIds(h, acts)
    requires Alive(h, roomId, id)
    ensures SentPrefix(h, RunHub(h, acts), roomId, id, MatchingEvents(acts, roomId, h.rooms[roomId][id]))
    decreases acts
  {
    if acts != [] {
      var allowed := h.rooms[roomId][id];
      var h1, rest := Step(h, acts[0]), acts[1..];
      LiveStep(h, acts[0], roomId, id);
      StepKeepsValid(h, acts[0]);
      assert MatchingEvents(acts, roomId, allowed)
          == MatchingEvents([acts[0]], roomId, allowed) + MatchingEvents(rest, roomId, allowed) by {
        assert acts == [acts[0]] + rest;
        MatchingConcat([acts[0]], rest, roomId, allowed);
      }
      if Alive(h1, roomId, id) {
        GapFree(h1, rest, roomId, id);
      } else {
        NothingAfterRemoval(h1, rest, id);
      }
      PrefixesChain(h, h1, RunHub(h1, rest), roomId, id,
                    MatchingEvents([acts[0]], roomId, allowed), MatchingEvents(rest, roomId, allowed));
    }
  }

  // ---------------------------------------------------------------- the receiving side

  /** What the receives of one client return during a run: the head of its queue each time there is one. */
  function Returned(h: Hub, acts: seq<HubAct>, id: ClientId): seq<Event>
    decreases acts
  {
    if acts == [] then []
    else
      var later := Returned(Step(h, acts[0]), acts[1..], id);
      if acts[0] == Receive(id) && id in h.channels && h.channels[id].open && h.channels[id].queue != [] then
        [h.channels[id].queue[0]] + later
      else later
  }

  lemma StepReceives(h: Hub, act: HubAct, id: ClientId)
    requires id in h.channels && (act.Add? ==> act.id !in h.channels)
    ensures id in Step(h, act).channels
    ensures Step(h, act).channels[id].received == h.channels[id].received + Returned(h, [act], id)
  {
    assert [act][1..] == [] && Returned(Step(h, act), [], id) == [];
  }

  lemma ReturnedCons(h: Hub, acts: seq<HubAct>, id: ClientId)
    requires acts != []
    ensures Returned(h, acts, id) == Returned(h, [acts[0]], id) + Returned(Step(h, acts[0]), acts[1..], id)
  {
    assert [acts[0]][1..] == [] && Returned(Step(h, acts[0]), [], id) == [];
  }

  /** Over every run, what a client has received grows by exactly what its receives returned, in order. */
  lemma {:induction false} ReceivedIsReturned(h: Hub, acts: seq<HubAct>, id: ClientId)
    requires id in h.channels && FreshIds(h, acts)
    ensures id in RunHub(h, acts).channels
    ensures RunHub(h, acts).channels[id].received == h.channels[id].received + Returned(h, acts, id)
    decreases acts
  {
    if acts != [] {
      StepReceives(h, acts[0], id);
      ReceivedIsReturned(Step(h, acts[0]), acts[1..], id);
      ReturnedCons(h, acts, id);
    }
  }

  /**
    Over every run, the receives of a client return its queue and then the matching events of its
    room in order, without repeating or leaving out any.
   */
  lemma ReturnedInOrder(h: Hub, acts: seq<HubAct>, roomId: nat, id: ClientId)
    requires ValidHub(h) && FreshIds(h, acts) && Alive(h, roomId, id)
    ensures Returned(h, acts, id) <= h.channels[id].queue + MatchingEvents(acts, roomId, h.rooms[roomId][id])
  {
    var before, after := h.channels[id], RunHub(h, acts).channels;
    GapFree(h, acts, roomId, id);
    ReceivedIsReturned(h, acts, id);
    PrefixAfter(before.received, Returned(h, acts, id), after[id].queue,
                before.queue, MatchingEvents(acts, roomId, h.rooms[roomId][id]));
  }

  lemma PrefixAfter(received: seq<Event>, returned: seq<Event>, left: seq<Event>, queue: seq<Event>, events: seq<Event>)
    requires received + returned + left <= received + queue + events
    ensures returned <= queue + events
  {
    var all, whole := received + returned + left, received + queue + events;
    forall i | 0 <= i < |returned|
      ensures i < |queue + events| && returned[i] == (queue + events)[i]
    {
      assert returned[i] == all[|received| + i] == whole[|received| + i];
    }
  }

  function Receives(id: ClientId, k: nat): seq<HubAct> {
    if k == 0 then [] else [Receive(id)] + Receives(id, k - 1)
  }

  /** On an open channel, k receives in a row return the first k events of the queue and leave the rest. */
  lemma {:induction false} ReceivesDrain(h: Hub, id: ClientId, k: nat)
    requires id in h.channels && h.channels[id].open && k <= |h.channels[id].queue|
    ensures Returned(h, Receives(id, k), id) == h.channels[id].queue[..k]
    ensures RunHub(h, Receives(id, k)).channels.Keys == h.channels.Keys
    ensures RunHub(h, Receives(id, k)).channels[id].queue == h.channels[id].queue[k..]
    ensures RunHub(h, Receives(id, k)).channels[id].open
    decreases k
  {
    if k > 0 {
      var queue := h.channels[id].queue;
      assert Receives(id, k)[1..] == Receives(id, k - 1);
      ReceivesDrain(Step(h, Receive(id)), id, k - 1);
      assert queue[..k] == [queue[0]] + queue[1..][..k - 1];
      assert queue[1..][k - 1..] == queue[k..];
    }
  }

  /** A receiver that hung up is dead: its queue is gone, and nothing is ever put into its channel again. */
  lemma HangupIsFinal(h: Hub, acts: seq<HubAct>, id: ClientId)
    requires id in h.channels && FreshIds(Step(h, Hangup(id)), acts)
    ensures var h' := RunHub(Step(h, Hangup(id)), acts);
      id in h'.channels && !h'.channels[id].open && h'.channels[id].Sent() == h.channels[id].received
  {
    var h1 := Step(h, Hangup(id));
    assert h1.channels[id].Sent() == h.channels[id].received;
    StaysClosed(h1, acts, id);
  }

  lemma {:induction false} StaysClosed(h: Hub, acts: seq<HubAct>, id: ClientId)
    requires id in h.channels && !h.channels[id].open && FreshIds(h, acts)
    ensures var h' := RunHub(h, acts);
      id in h'.channels && !h'.channels[id].open && (h.channels[id].queue == [] ==> h'.channels[id] == h.channels[id])
    decreases acts
  {
    if acts != [] {
      StaysClosed(Step(h, acts[0]), acts[1..], id);
    }
  }
}
