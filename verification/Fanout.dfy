/** The hub of connected subscribers, updated in place, with one outbound channel per client. */
module Fanout {
  import opened Data
  import opened HubModel
  import opened RateLimiter
  import Decimal

  /** A clock whose readings never go back. */
  class Clock {
    var reading: nat

    constructor () {
    }

    method Now() returns (now: nat)
      modifies this
      ensures now == reading && old(reading) <= reading
    {
      now :| reading <= now;
      reading := now;
    }
  }

  datatype SendResult = Sent | Full | ReceiverGone

  /** A bounded queue shared by the hub, which sends, and one connection, which receives. */
  class Outbound {
    var queue: seq<Event>
    var open: bool
    ghost var received: seq<Event>

    ghost function Model(): Channel
      reads this
    {
      Channel(queue, received, open)
    }

    constructor ()
      ensures Model() == NEW_CHANNEL
    {
      queue, open, received := [], true, [];
    }

    method TrySend(event: Event) returns (res: SendResult)
      modifies this
      ensures res == if !old(open) then ReceiverGone else if |old(queue)| >= 256 then Full else Sent
      ensures Model() == if Accepts(old(Model())) then old(Model()).(queue := old(queue) + [event]) else old(Model())
    {
      if !open {
        return ReceiverGone;
      }
      if |queue| >= MAX_PENDING {
        return Full;
      }
      queue := queue + [event];
      res := Sent;
    }

    /** The receiving side takes the oldest event. */
    method Receive() returns (event: Option<Event>)
      modifies this
      ensures var ch := old(Model());
        if ch.open && ch.queue != [] then event == Some(ch.queue[0]) && Model() == Taken(ch)
        else event == None && Model() == ch
      ensures event.Some? ==> old(queue) == [event.value] + queue && received == old(received) + [event.value]
    {
      if !open || queue == [] {
        return None;
      }
      event := Some(queue[0]);
      received := received + [queue[0]];
      queue := queue[1..];
    }

    /** The receiving side is gone, and what was queued with it. */
    method Close()
      modifies this
      ensures Model() == Closed(old(Model()))
    {
      queue, open := [], false;
    }
  }

  datatype ClientInfo = ClientInfo(allowedContainers: set<string>, sender: Outbound)

  /** The key under which deliveries to one client of one room are limited. */
  function ClientKey(roomId: nat, id: ClientId): string {
    Decimal.Print(roomId) + [':'] + id
  }

  /** No two clients share a limiter key. */
  lemma ClientKeyInjective(r: nat, id: ClientId, r': nat, id': ClientId)
    requires ClientKey(r, id) == ClientKey(r', id')
    ensures r == r' && id == id'
  {
    Decimal.PrefixInjective(r, r', ':', id, id');
  }

  /** The limiter calls of one broadcast, in the order in which its targets were visited. */
  function CallsOf(roomId: nat, order: seq<ClientId>, times: seq<nat>, limit: nat, window: nat): seq<Call>
    requires |order| == |times|
  {
    seq(|order|, i requires 0 <= i < |order| => Call(ClientKey(roomId, order[i]), limit, window, times[i]))
  }

  /** The targets that the limiter refused. */
  function RefusedOf(order: seq<ClientId>, verdicts: seq<bool>): set<ClientId>
    requires |order| == |verdicts|
  {
    set i | 0 <= i < |order| && !verdicts[i] :: order[i]
  }

  ghost predicate Distinct(order: seq<ClientId>) {
    forall i, j | 0 <= i < j < |order| :: order[i] != order[j]
  }

  /** Readings never go back within one broadcast, nor before `from` or after `to`. */
  ghost predicate TimesWithin(times: seq<nat>, from: nat, to: nat) {
    && (forall i, j | 0 <= i < j < |times| :: times[i] <= times[j])
    && (forall i | 0 <= i < |times| :: from <= times[i] <= to)
  }

  type Clients = map<ClientId, ClientInfo>

  function Allowances(clients: Clients): map<ClientId, set<string>> {
    map id | id in clients :: clients[id].allowedContainers
  }

  function RoomAllowances(rooms: map<nat, Clients>): map<nat, map<ClientId, set<string>>> {
    map r | r in rooms :: Allowances(rooms[r])
  }

  lemma AllowancesSize(clients: Clients)
    ensures |Allowances(clients)| == |clients|
    ensures Allowances(clients) == map[] <==> clients == map[]
  {
    assert Allowances(clients).Keys == clients.Keys;
  }

  lemma AllowancesAdd(clients: Clients, id: ClientId, client: ClientInfo)
    ensures Allowances(clients[id := client]) == Allowances(clients)[id := client.allowedContainers]
  {
  }

  lemma AllowancesRemove(clients: Clients, gone: set<ClientId>)
    ensures Allowances(clients - gone) == Allowances(clients) - gone
  {
  }

  lemma RoomAllowancesPut(rooms: map<nat, Clients>, roomId: nat, clients: Clients)
    ensures RoomAllowances(rooms[roomId := clients]) == RoomAllowances(rooms)[roomId := Allowances(clients)]
  {
  }

  lemma RoomAllowancesRemove(rooms: map<nat, Clients>, roomId: nat)
    ensures RoomAllowances(rooms - {roomId}) == RoomAllowances(rooms) - {roomId}
  {
  }

  /** Each client's sender is its own channel, and rooms without clients are not kept. */
  ghost predicate Linked(rooms: map<nat, Clients>, channels: map<ClientId, Outbound>) {
    && (forall r | r in rooms :: rooms[r] != map[] && LinkedClients(rooms[r], channels))
    && (forall a, b | a in channels && b in channels && a != b :: channels[a] != channels[b])
  }

  ghost predicate LinkedClients(clients: Clients, channels: map<ClientId, Outbound>) {
    forall id | id in clients :: id in channels && clients[id].sender == channels[id]
  }

  ghost function ChannelModels(channels: map<ClientId, Outbound>): map<ClientId, Channel>
    reads channels.Values
  {
    map id | id in channels :: channels[id].Model()
  }

  function AfterVisit(ch: Channel, sent: bool, event: Event): Channel {
    if sent then ch.(queue := ch.queue + [event]) else ch
  }

  ghost predicate IsOrderOf(order: seq<ClientId>, ids: set<ClientId>) {
    Distinct(order) && forall id :: id in order <==> id in ids
  }

  /** The clients not in `todo` had their turn in a broadcast of `u`. */
  ghost predicate Visited(before: Hub, u: RoomUpdate, refused: set<ClientId>, models: map<ClientId, Channel>,
                          todo: set<ClientId>)
  {
    && models.Keys == before.channels.Keys
    && refused !! todo
    && forall id | id in models ::
         models[id] == if id in todo then before.channels[id] else ChannelAfter(before, u, refused, id)
  }

  lemma NobodyThere(before: Hub, u: RoomUpdate)
    requires u.roomId !in before.rooms
    ensures Targets(before, u) == {}
    ensures Step(before, Broadcast(u, RefusedOf([], []))) == before
  {
  }

  lemma NothingVisited(before: Hub, u: RoomUpdate, members: set<ClientId>)
    requires members == Members(before, u.roomId).Keys
    ensures Visited(before, u, RefusedOf([], []), before.channels, members)
    ensures Targets(before, u) - members == {} && RefusedOf([], []) == {}
    ensures forall id :: id in members || !Drops(before, u, {}, id)
  {
  }

  lemma NotTargeted(before: Hub, u: RoomUpdate, refused: set<ClientId>, models: map<ClientId, Channel>,
                    todo: set<ClientId>, id: ClientId)
    requires Visited(before, u, refused, models, todo) && id !in Targets(before, u)
    ensures Visited(before, u, refused, models, todo - {id})
    ensures Targets(before, u) - (todo - {id}) == Targets(before, u) - todo
    ensures !Drops(before, u, refused, id)
  {
  }

  lemma VisitStep(before: Hub, u: RoomUpdate, refused: set<ClientId>, models: map<ClientId, Channel>,
                  todo: set<ClientId>, id: ClientId, verdict: bool)
    requires Visited(before, u, refused, models, todo)
    requires id in todo && id in Targets(before, u) && id in models
    ensures Targets(before, u) - todo + {id} == Targets(before, u) - (todo - {id}) && id !in Targets(before, u) - todo
    ensures var refused' := if verdict then refused else refused + {id};
      var sent := verdict && Accepts(models[id]);
      && Visited(before, u, refused', models[id := AfterVisit(models[id], sent, EventOf(u))], todo - {id})
      && (Drops(before, u, refused', id) <==> !sent)
      && forall x | x != id :: Drops(before, u, refused', x) <==> Drops(before, u, refused, x)
  {
    var refused' := if verdict then refused else refused + {id};
    assert forall x | x != id :: x in refused' <==> x in refused;
    assert models[id] == before.channels[id];
  }

  lemma OrderStep(order: seq<ClientId>, times: seq<nat>, verdicts: seq<bool>, visited: set<ClientId>, id: ClientId,
                  now: nat, verdict: bool, roomId: nat, limit: nat, window: nat)
    requires |order| == |times| == |verdicts|
    requires IsOrderOf(order, visited) && id !in visited
    ensures IsOrderOf(order + [id], visited + {id})
    ensures CallsOf(roomId, order + [id], times + [now], limit, window)
         == CallsOf(roomId, order, times, limit, window) + [Call(ClientKey(roomId, id), limit, window, now)]
    ensures RefusedOf(order + [id], verdicts + [verdict])
         == if verdict then RefusedOf(order, verdicts) else RefusedOf(order, verdicts) + {id}
  {
    assert forall i | 0 <= i < |order| :: order[i] in order;
    var all, ok := order + [id], verdicts + [verdict];
    assert forall i | 0 <= i < |order| :: all[i] == order[i] && ok[i] == verdicts[i];
    assert all[|order|] == id && ok[|order|] == verdict;
  }

  /** The turns taken so far in a broadcast. */
  datatype Turns = Turns(order: seq<ClientId>, times: seq<nat>, verdicts: seq<bool>)
  {
    function Then(id: ClientId, now: nat, verdict: bool): Turns {
      Turns(order + [id], times + [now], verdicts + [verdict])
    }

    predicate Wf() { |order| == |times| == |verdicts| }
  }

  /** The limiter calls of a broadcast follow its history, with these readings and verdicts. */
  ghost predicate Limited(u: RoomUpdate, turns: Turns, from: nat, to: nat, limit: nat, window: nat,
                          history: seq<Call>, history': seq<Call>)
  {
    && turns.Wf() && from <= to && TimesWithin(turns.times, from, to)
    && history' == history + CallsOf(u.roomId, turns.order, turns.times, limit, window)
    && Answers(map[], history') == Answers(map[], history) + turns.verdicts
  }

  /** The clients not in `todo` had their turn, and `disconnected` lists those that were dropped. */
  ghost predicate Progress(before: Hub, u: RoomUpdate, turns: Turns, models: map<ClientId, Channel>,
                           todo: set<ClientId>, disconnected: seq<ClientId>)
  {
    && turns.Wf()
    && IsOrderOf(turns.order, Targets(before, u) - todo)
    && var refused := RefusedOf(turns.order, turns.verdicts);
       && Visited(before, u, refused, models, todo)
       && forall id :: id in disconnected <==> id !in todo && Drops(before, u, refused, id)
  }

  lemma ProgressStart(before: Hub, u: RoomUpdate, from: nat, limit: nat, window: nat, history: seq<Call>)
    ensures Progress(before, u, Turns([], [], []), before.channels, Members(before, u.roomId).Keys, [])
    ensures Limited(u, Turns([], [], []), from, from, limit, window, history, history)
  {
    NothingVisited(before, u, Members(before, u.roomId).Keys);
    assert history + CallsOf(u.roomId, [], [], limit, window) == history;
    assert Answers(map[], history) + [] == Answers(map[], history);
  }

  lemma ProgressSkip(before: Hub, u: RoomUpdate, turns: Turns, models: map<ClientId, Channel>,
                     todo: set<ClientId>, disconnected: seq<ClientId>, id: ClientId)
    requires Progress(before, u, turns, models, todo, disconnected) && id !in Targets(before, u)
    ensures Progress(before, u, turns, models, todo - {id}, disconnected)
  {
    NotTargeted(before, u, RefusedOf(turns.order, turns.verdicts), models, todo, id);
  }

  lemma ProgressStep(before: Hub, u: RoomUpdate, turns: Turns, models: map<ClientId, Channel>,
                     todo: set<ClientId>, disconnected: seq<ClientId>, id: ClientId, now: nat, verdict: bool)
    requires Progress(before, u, turns, models, todo, disconnected)
    requires id in todo && id in Targets(before, u) && id in models
    ensures var sent := verdict && Accepts(models[id]);
      Progress(before, u, turns.Then(id, now, verdict), models[id := AfterVisit(models[id], sent, EventOf(u))],
               todo - {id}, if sent then disconnected else disconnected + [id])
  {
    var refused := RefusedOf(turns.order, turns.verdicts);
    VisitStep(before, u, refused, models, todo, id, verdict);
    OrderStep(turns.order, turns.times, turns.verdicts, Targets(before, u) - todo, id, now, verdict, u.roomId, 0, 0);
    assert id !in disconnected;
  }

  lemma LimitedStep(u: RoomUpdate, turns: Turns, from: nat, to: nat, limit: nat, window: nat,
                    history: seq<Call>, history1: seq<Call>, history2: seq<Call>,
                    visited: set<ClientId>, id: ClientId, now: nat, verdict: bool)
    requires Limited(u, turns, from, to, limit, window, history, history1) && to <= now
    requires IsOrderOf(turns.order, visited) && id !in visited
    requires history2 == history1 + [Call(ClientKey(u.roomId, id), limit, window, now)]
    requires Answers(map[], history2) == Answers(map[], history1) + [verdict]
    ensures Limited(u, turns.Then(id, now, verdict), from, now, limit, window, history, history2)
  {
    OrderStep(turns.order, turns.times, turns.verdicts, visited, id, now, verdict, u.roomId, limit, window);
    TimesAppend(turns.times, from, to, now);
    Associative(history, CallsOf(u.roomId, turns.order, turns.times, limit, window),
                [Call(ClientKey(u.roomId, id), limit, window, now)]);
    Associative(Answers(map[], history), turns.verdicts, [verdict]);
  }

  lemma TimesAppend(times: seq<nat>, from: nat, to: nat, now: nat)
    requires TimesWithin(times, from, to) && from <= to <= now
    ensures TimesWithin(times + [now], from, now)
  {
  }

  lemma Associative<T>(a: seq<T>, b: seq<T>, c: seq<T>)
    ensures a + b + c == a + (b + c)
  {
  }

  /** Taking out the dropped clients is what the broadcast step does to the room. */
  lemma DroppedAreGone(before: Hub, u: RoomUpdate, turns: Turns, models: map<ClientId, Channel>,
                       clients: Clients, disconnected: seq<ClientId>)
    requires u.roomId in before.rooms && before.rooms[u.roomId] == Allowances(clients)
    requires Progress(before, u, turns, models, {}, disconnected)
    ensures IsOrderOf(turns.order, Targets(before, u))
    ensures Step(before, Broadcast(u, RefusedOf(turns.order, turns.verdicts)))
         == WithMembers(Hub(before.rooms, models), u.roomId, Allowances(clients - (set id | id in disconnected)))
  {
    var refused := RefusedOf(turns.order, turns.verdicts);
    var members, kept := Members(before, u.roomId), clients - (set id | id in disconnected);
    assert Targets(before, u) - {} == Targets(before, u);
    assert models == map id | id in before.channels :: ChannelAfter(before, u, refused, id);
    assert (map id | id in members && !Drops(before, u, refused, id) :: members[id]) == Allowances(kept);
  }

  lemma LinkedAdd(rooms: map<nat, Clients>, channels: map<ClientId, Outbound>, roomId: nat, clients: Clients,
                  id: ClientId, client: ClientInfo)
    requires Linked(rooms, channels) && LinkedClients(clients, channels)
    requires id !in channels && client.sender !in channels.Values
    ensures Linked(rooms[roomId := clients[id := client]], channels[id := client.sender])
  {
    var rooms', channels' := rooms[roomId := clients[id := client]], channels[id := client.sender];
    assert id in rooms'[roomId];
    forall r | r in rooms'
      ensures rooms'[r] != map[] && LinkedClients(rooms'[r], channels')
    {
    }
  }

  /** The rooms once one room's clients are put back; a room without clients is dropped. */
  function StoredRooms(rooms: map<nat, Clients>, roomId: nat, kept: Clients): map<nat, Clients> {
    if kept == map[] then rooms - {roomId} else rooms[roomId := kept]
  }

  lemma StoredRoomsModel(rooms: map<nat, Clients>, channels: map<ClientId, Outbound>, roomId: nat, kept: Clients,
                         models: map<ClientId, Channel>)
    requires Linked(rooms, channels) && LinkedClients(kept, channels)
    ensures Linked(StoredRooms(rooms, roomId, kept), channels)
    ensures Hub(RoomAllowances(StoredRooms(rooms, roomId, kept)), models)
         == WithMembers(Hub(RoomAllowances(rooms), models), roomId, Allowances(kept))
  {
    AllowancesSize(kept);
    RoomAllowancesRemove(rooms, roomId);
    RoomAllowancesPut(rooms, roomId, kept);
  }

  /** Adding a client: the hub step on values. */
  lemma AddedModel(rooms: map<nat, Clients>, roomId: nat, id: ClientId, client: ClientInfo,
                   models: map<ClientId, Channel>)
    ensures var clients := if roomId in rooms then rooms[roomId] else map[];
      var before := Hub(RoomAllowances(rooms), models);
      && |Members(before, roomId)| == |clients|
      && Step(before, Add(roomId, id, client.allowedContainers))
         == if |clients| >= MAX_CLIENTS then before
            else Hub(RoomAllowances(rooms[roomId := clients[id := client]]), models[id := NEW_CHANNEL])
  {
    var clients := if roomId in rooms then rooms[roomId] else map[];
    AllowancesSize(clients);
    AllowancesAdd(clients, id, client);
    RoomAllowancesPut(rooms, roomId, clients[id := client]);
  }

  lemma RemovedModel(rooms: map<nat, Clients>, roomId: nat, id: ClientId, models: map<ClientId, Channel>)
    ensures var before := Hub(RoomAllowances(rooms), models);
      Step(before, Remove(roomId, id))
      == if roomId in rooms then WithMembers(before, roomId, Allowances(rooms[roomId] - {id})) else before
  {
    if roomId in rooms {
      AllowancesRemove(rooms[roomId], {id});
    } else {
      assert Members(Hub(RoomAllowances(rooms), models), roomId) - {id} == map[];
      assert RoomAllowances(rooms) - {roomId} == RoomAllowances(rooms);
    }
  }

  lemma ChannelModelsAdd(channels: map<ClientId, Outbound>, id: ClientId, sender: Outbound)
    requires id !in channels && sender.Model() == NEW_CHANNEL
    ensures ChannelModels(channels[id := sender]) == ChannelModels(channels)[id := NEW_CHANNEL]
  {
  }

  class WsHub {
    var rooms: map<nat, Clients>
    ghost var channels: map<ClientId, Outbound>

    ghost predicate Valid()
      reads this
    {
      Linked(rooms, channels)
    }

    ghost function Model(): Hub
      reads this, channels.Values
    {
      Hub(RoomAllowances(rooms), ChannelModels(channels))
    }

    constructor ()
      ensures Valid() && Model() == EMPTY_HUB
    {
      rooms, channels := map[], map[];
    }

    method AddClient(roomId: nat, id: ClientId, client: ClientInfo) returns (added: bool)
      requires Valid()
      requires id !in channels && client.sender !in channels.Values && client.sender.Model() == NEW_CHANNEL
      modifies this
      ensures Valid()
      ensures added == (|Members(old(Model()), roomId)| < MAX_CLIENTS)
      ensures Model() == Step(old(Model()), Add(roomId, id, client.allowedContainers))
      ensures channels == if added then old(channels)[id := client.sender] else old(channels)
    {
      var roomClients := if roomId in rooms then rooms[roomId] else map[];
      ghost var before := ChannelModels(channels);
      AddedModel(rooms, roomId, id, client, before);
      if |roomClients| >= MAX_CLIENTS {
        return false;
      }
      assert LinkedClients(roomClients, channels);
      LinkedAdd(rooms, channels, roomId, roomClients, id, client);
      ghost var others := channels;
      rooms := rooms[roomId := roomClients[id := client]];
      channels := channels[id := client.sender];
      assert ChannelModels(others) == before;
      ChannelModelsAdd(others, id, client.sender);
      added := true;
    }

    method RemoveClient(roomId: nat, id: ClientId)
      requires Valid()
      modifies this`rooms
      ensures Valid()
      ensures Model() == Step(old(Model()), Remove(roomId, id))
    {
      RemovedModel(rooms, roomId, id, ChannelModels(channels));
      if roomId in rooms {
        assert LinkedClients(rooms[roomId], channels);
        StoreClients(roomId, rooms[roomId] - {id});
      }
    }

    /** Put back what is left of a room's clients, or drop the room when nobody is left. */
    method StoreClients(roomId: nat, kept: Clients)
      requires Valid() && LinkedClients(kept, channels)
      modifies this`rooms
      ensures Valid()
      ensures Model() == WithMembers(old(Model()), roomId, Allowances(kept))
    {
      ghost var models := ChannelModels(channels);
      StoredRoomsModel(rooms, channels, roomId, kept, models);
      if kept == map[] {
        rooms := rooms - {roomId};
      } else {
        rooms := rooms[roomId := kept];
      }
      assert ChannelModels(channels) == models;
    }

    method RemoveRoom(roomId: nat)
      requires Valid()
      modifies this`rooms
      ensures Valid()
      ensures Model() == Step(old(Model()), HubModel.RemoveRoom(roomId))
    {
      RoomAllowancesRemove(rooms, roomId);
      rooms := rooms - {roomId};
    }

    method SendTo(id: ClientId, client: ClientInfo, event: Event) returns (sent: bool)
      requires Valid() && id in channels && client.sender == channels[id]
      modifies client.sender
      ensures sent == Accepts(old(channels[id].Model()))
      ensures ChannelModels(channels)
           == old(ChannelModels(channels))[id := AfterVisit(old(channels[id].Model()), sent, event)]
    {
      ghost var before := ChannelModels(channels);
      var res := client.sender.TrySend(event);
      sent := res == Sent;
      assert forall x | x in channels && x != id :: channels[x] != channels[id];
      assert ChannelModels(channels) == before[id := AfterVisit(before[id], sent, event)];
    }

    /** The connection of a client takes the oldest event from its own end of the channel. */
    method Take(id: ClientId, receiver: Outbound) returns (event: Option<Event>)
      requires Valid() && id in channels && channels[id] == receiver
      modifies receiver
      ensures Valid() && Model() == Step(old(Model()), HubModel.Receive(id))
      ensures var ch := old(receiver.Model());
        event == if ch.open && ch.queue != [] then Some(ch.queue[0]) else None
    {
      ghost var before := ChannelModels(channels);
      event := receiver.Receive();
      assert forall x | x in channels && x != id :: channels[x] != channels[id];
      assert ChannelModels(channels) == before[id := receiver.Model()];
    }

    /** The connection of a client is gone. */
    method Drop(id: ClientId, receiver: Outbound)
      requires Valid() && id in channels && channels[id] == receiver
      modifies receiver
      ensures Valid() && Model() == Step(old(Model()), HubModel.Hangup(id))
    {
      ghost var before := ChannelModels(channels);
      receiver.Close();
      assert forall x | x in channels && x != id :: channels[x] != channels[id];
      assert ChannelModels(channels) == before[id := receiver.Model()];
    }

    /** One client's turn in a broadcast: ask the limiter, then try to send. */
    method Visit(roomId: nat, id: ClientId, client: ClientInfo, event: Event,
                 limiter: Limiter, limit: nat, window: nat, clock: Clock)
      returns (sent: bool, ghost now: nat, ghost verdict: bool)
      requires Valid() && limiter.Valid() && id in channels && client.sender == channels[id]
      modifies client.sender, limiter, clock
      ensures limiter.Valid() && old(clock.reading) <= now == clock.reading
      ensures limiter.history == old(limiter.history) + [Call(ClientKey(roomId, id), limit, window, now)]
      ensures Answers(map[], limiter.history) == Answers(map[], old(limiter.history)) + [verdict]
      ensures sent == (verdict && Accepts(old(channels[id].Model())))
      ensures ChannelModels(channels)
           == old(ChannelModels(channels))[id := AfterVisit(old(channels[id].Model()), sent, event)]
    {
      ghost var before := ChannelModels(channels);
      var reading := clock.Now();
      var allowed := limiter.TryAllow(ClientKey(roomId, id), limit, window, reading);
      now, verdict := reading, allowed;
      assert ChannelModels(channels) == before;
      if !allowed {
        assert before == before[id := before[id]];
        return false, now, verdict;
      }
      sent := SendTo(id, client, event);
    }

    /** One client's turn, as it advances the broadcast; a client that the update is not meant for is passed by. */
    method Turn(u: RoomUpdate, id: ClientId, client: ClientInfo, event: Event,
                limiter: Limiter, limit: nat, window: nat, clock: Clock,
                ghost before: Hub, ghost turns: Turns, ghost todo: set<ClientId>, ghost disconnected: seq<ClientId>,
                ghost from: nat, ghost history: seq<Call>)
      returns (drop: bool, ghost turns': Turns)
      requires Valid() && limiter.Valid() && id in channels && client.sender == channels[id]
      requires id in Members(before, u.roomId) && client.allowedContainers == Members(before, u.roomId)[id]
      requires id in todo && event == EventOf(u)
      requires Limited(u, turns, from, clock.reading, limit, window, history, limiter.history)
      requires Progress(before, u, turns, ChannelModels(channels), todo, disconnected)
      modifies client.sender, limiter, clock
      ensures limiter.Valid()
      ensures Limited(u, turns', from, clock.reading, limit, window, history, limiter.history)
      ensures Progress(before, u, turns', ChannelModels(channels), todo - {id},
                       if drop then disconnected + [id] else disconnected)
    {
      if u.container != STAR && u.container != PUBLIC && u.container !in client.allowedContainers {
        ProgressSkip(before, u, turns, ChannelModels(channels), todo, disconnected, id);
        return false, turns;
      }
      ghost var models, reading, calls := ChannelModels(channels), clock.reading, limiter.history;
      var sent;
      ghost var now, verdict;
      sent, now, verdict := Visit(u.roomId, id, client, event, limiter, limit, window, clock);
      drop := !sent;
      turns' := turns.Then(id, now, verdict);
      ProgressStep(before, u, turns, models, todo, disconnected, id, now, verdict);
      LimitedStep(u, turns, from, reading, limit, window, history, calls, limiter.history,
                  Targets(before, u) - todo, id, now, verdict);
    }

    /** The loop over the room's clients; `disconnected` collects those to remove. */
    method VisitAll(u: RoomUpdate, limiter: Limiter, limit: nat, window: nat, clock: Clock)
      returns (disconnected: seq<ClientId>, ghost turns: Turns)
      requires Valid() && limiter.Valid() && u.roomId in rooms
      modifies channels.Values, limiter, clock
      ensures limiter.Valid()
      ensures Limited(u, turns, old(clock.reading), clock.reading, limit, window, old(limiter.history), limiter.history)
      ensures Progress(old(Model()), u, turns, ChannelModels(channels), {}, disconnected)
    {
      ghost var before := Model();
      var event := EventOf(u);
      var roomClients := rooms[u.roomId];
      var todo := roomClients.Keys;
      disconnected, turns := [], Turns([], [], []);
      assert LinkedClients(roomClients, channels);
      ProgressStart(before, u, clock.reading, limit, window, limiter.history);
      while todo != {}
        invariant todo <= roomClients.Keys
        invariant limiter.Valid()
        invariant Limited(u, turns, old(clock.reading), clock.reading, limit, window,
                          old(limiter.history), limiter.history)
        invariant Progress(before, u, turns, ChannelModels(channels), todo, disconnected)
        decreases todo
      {
        var id :| id in todo;
        var drop;
        drop, turns := Turn(u, id, roomClients[id], event, limiter, limit, window, clock,
                            before, turns, todo, disconnected, old(clock.reading), old(limiter.history));
        disconnected := if drop then disconnected + [id] else disconnected;
        todo := todo - {id};
      }
    }

    /**
      Send an update to every client it is meant for. A client that the limiter refuses, whose
      queue is full or whose receiver is gone is removed.
     */
    method BroadcastUpdate(u: RoomUpdate, limiter: Limiter, limit: nat, window: nat, clock: Clock)
      returns (ghost turns: Turns)
      requires Valid() && limiter.Valid()
      modifies this`rooms, channels.Values, limiter, clock
      ensures Valid() && limiter.Valid()
      ensures Limited(u, turns, old(clock.reading), clock.reading, limit, window, old(limiter.history), limiter.history)
      ensures IsOrderOf(turns.order, Targets(old(Model()), u))
      ensures Model() == Step(old(Model()), Broadcast(u, RefusedOf(turns.order, turns.verdicts)))
    {
      ghost var before := Model();
      if u.roomId !in rooms {
        NobodyThere(before, u);
        ProgressStart(before, u, clock.reading, limit, window, limiter.history);
        return Turns([], [], []);
      }
      var disconnected;
      disconnected, turns := VisitAll(u, limiter, limit, window, clock);
      DropClients(u, disconnected, before, turns);
    }

    /** The removal of the collected clients, and of the room if nobody is left. */
    method DropClients(u: RoomUpdate, disconnected: seq<ClientId>, ghost before: Hub, ghost turns: Turns)
      requires Valid() && u.roomId in rooms && RoomAllowances(rooms) == before.rooms
      requires Progress(before, u, turns, ChannelModels(channels), {}, disconnected)
      modifies this`rooms
      ensures Valid() && IsOrderOf(turns.order, Targets(before, u))
      ensures Model() == Step(before, Broadcast(u, RefusedOf(turns.order, turns.verdicts)))
    {
      var roomClients := rooms[u.roomId];
      assert LinkedClients(roomClients, channels);
      DroppedAreGone(before, u, turns, ChannelModels(channels), roomClients, disconnected);
      var kept := Without(roomClients, disconnected);
      StoreClients(u.roomId, kept);
    }
  }

  method Without(clients: Clients, gone: seq<ClientId>) returns (kept: Clients)
    ensures kept == clients - (set id | id in gone)
  {
    kept := clients;
    for i := 0 to |gone|
      invariant kept == clients - (set id | id in gone[..i])
    {
      assert gone[..i + 1] == gone[..i] + [gone[i]];
      kept := kept - {gone[i]};
    }
    assert gone[..|gone|] == gone;
  }
}
