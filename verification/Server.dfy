/** The serial command loop: one line in, one response out, then hub cleanup and broadcast. */
module Server {
  import opened Data
  import opened HubModel
  import opened AppModel
  import opened AppStore
  import opened Fanout
  import opened RateLimiter
  import opened DeliveryRate
  import opened Commands
  import opened ServerModel
  import opened SystemRates
  import CommandLaws
  import SystemLaws
  import RoomModel
  import RoomStore
  import Tokenizer

  class CommandLoop {
    const app: AppState
    const hub: WsHub
    const updateLimiter: Limiter
    const roomLimiter: Limiter
    const clock: Clock
    const limits: Limits

    ghost predicate Valid()
      reads app, app.rooms.Values, hub, updateLimiter, roomLimiter
    {
      app.Valid() && ValidHubSide()
    }

    ghost predicate ValidHubSide()
      reads hub, updateLimiter, roomLimiter
    {
      hub.Valid() && updateLimiter.Valid() && roomLimiter.Valid() && updateLimiter != roomLimiter
    }

    ghost function HubSide(): Side
      reads hub, hub.channels.Values, updateLimiter, roomLimiter, clock
    {
      Side(hub.Model(), roomLimiter.history, updateLimiter.history, clock.reading)
    }

    /** The system, its limiters and its clock as values. */
    ghost function Model(): World
      reads app, app.rooms.Values, hub, hub.channels.Values, updateLimiter, roomLimiter, clock
    {
      Whole(app.Model(), HubSide())
    }

    constructor (limits: Limits)
      ensures Valid() && Unasked(Model()) && Model().sys == Sys(FRESH_APP, EMPTY_HUB) && this.limits == limits
      ensures fresh(app) && fresh(hub) && fresh(updateLimiter) && fresh(roomLimiter) && fresh(clock)
    {
      this.limits := limits;
      app := new AppState();
      hub := new WsHub();
      updateLimiter := new Limiter();
      roomLimiter := new Limiter();
      clock := new Clock();
    }

    /** Send one update on, unless the room as a whole is over its limit. */
    method Publish(u: RoomUpdate) returns (ghost p: Publication)
      requires ValidHubSide()
      modifies hub`rooms, hub.channels.Values, updateLimiter, roomLimiter, clock
      ensures ValidHubSide()
      ensures PublishedAs(limits, u, old(HubSide()), HubSide(), p)
    {
      ghost var before := HubSide();
      var reading := clock.Now();
      ghost var call := Call(RoomKey(u.roomId), limits.room, limits.roomWindow, reading);
      var allowed := roomLimiter.TryAllow(RoomKey(u.roomId), limits.room, limits.roomWindow, reading);
      VerdictOf(before.room, [call], [allowed]);
      assert hub.Model() == before.hub && roomLimiter.history == before.room + [call];
      p := Publication(reading, !allowed, NO_VISITS, {});
      if allowed {
        ghost var turns, refused := Send(u);
        p := Publication(reading, false, turns, refused);
      }
    }

    method Send(u: RoomUpdate) returns (ghost turns: Visits, ghost refused: set<ClientId>)
      requires ValidHubSide()
      modifies hub`rooms, hub.channels.Values, updateLimiter, clock
      ensures ValidHubSide() && old(clock.reading) <= clock.reading
      ensures hub.Model() == Step(old(hub.Model()), Broadcast(u, refused))
      ensures Fits(old(hub.Model()), After(map[], old(updateLimiter.history)), old(clock.reading),
                   Timed(Broadcast(u, refused), turns, clock.reading), limits.update, limits.updateWindow)
      ensures updateLimiter.history == old(updateLimiter.history)
                                       + CallsOf(u.roomId, turns.order, turns.times, limits.update, limits.updateWindow)
    {
      ghost var calls := updateLimiter.history;
      ghost var taken := hub.BroadcastUpdate(u, updateLimiter, limits.update, limits.updateWindow, clock);
      turns, refused := taken, RefusedOf(taken.order, taken.verdicts);
      VerdictOf(calls, CallsOf(u.roomId, turns.order, turns.times, limits.update, limits.updateWindow), turns.verdicts);
    }

    method CleanUp(resp: Response, line: string)
      requires ValidHubSide()
      modifies hub`rooms
      ensures ValidHubSide()
      ensures hub.Model() == Cleaned(old(hub.Model()), resp, line)
    {
      if resp == Plain {
        var cleanup := CleanupOf(line);
        if cleanup.Some? {
          hub.RemoveRoom(cleanup.value);
        }
      }
    }

    /**
      What follows the response: hub cleanup after a deletion that was recognised, and the
      broadcast of what was emitted, at most one update a command.
     */
    method AfterCommand(resp: Response, line: string, updates: seq<RoomUpdate>) returns (ghost p: Publication)
      requires ValidHubSide()
      modifies hub`rooms, hub.channels.Values, updateLimiter, roomLimiter, clock
      ensures ValidHubSide()
      ensures Followed(limits, resp, line, updates, old(HubSide()), HubSide(), p)
    {
      p := NOTHING_PUBLISHED;
      CleanUp(resp, line);
      if updates != [] {
        p := Publish(updates[0]);
      }
    }

    /** The hub's side of a command leaves the rooms alone. */
    method Follow(resp: Response, line: string, updates: seq<RoomUpdate>) returns (ghost p: Publication)
      requires Valid()
      modifies hub`rooms, hub.channels.Values, updateLimiter, roomLimiter, clock
      ensures Valid() && app.Model() == old(app.Model())
      ensures Followed(limits, resp, line, updates, old(HubSide()), HubSide(), p)
    {
      p := AfterCommand(resp, line, updates);
    }

    /** One turn of the loop, for a line already trimmed. It is at most one tick of the system. */
    method HandleLine(line: string, json: JsonParser)
      returns (resp: Response, ghost updates: seq<RoomUpdate>, ghost ticks: seq<Tick>)
      requires Valid() && Tokenizer.TrimStart(line) == line
      modifies app, app.rooms.Values, hub`rooms, hub.channels.Values, updateLimiter, roomLimiter, clock
      ensures Valid()
      ensures Processed(old(app.Model()), Parse(line, json), resp, updates)
      ensures TicksFit(limits, old(Model()), ticks) && Model() == RunWorld(limits, old(Model()), ticks)
      ensures IsLine(Parse(line, json), line, ticks)
      ensures LineDone(line, json, old(Model()), Model(), resp)
    {
      ghost var before, rooms := HubSide(), app.Model();
      var emitted;
      resp, emitted := ProcessCommand(line, app, json);
      assert HubSide() == before;
      ghost var p := Follow(resp, line, emitted);
      updates := emitted;
      ticks := TicksFor(Parse(line, json), line, p, clock.reading);
      LineTicks(limits, rooms, line, json, resp, updates, before, HubSide(), p);
      LineIsDone(limits, line, json, Whole(rooms, before), resp, updates, ticks);
    }

    /** The first step of joining: the state of the room. */
    method TakeSnapshot(roomId: nat, allowed: set<string>) returns (told: Option<RoomStore.RoomView>)
      requires Valid()
      ensures told == if roomId in app.Model().rooms then Some(ViewOf(app.Model().rooms[roomId], allowed)) else None
    {
      told := app.RoomSnapshot(roomId, allowed);
    }

    /** The second step: the room's counter, 0 if the room is gone by now. */
    method ReadCounter(roomId: nat) returns (counter: nat)
      requires Valid()
      ensures counter == if roomId in app.Model().rooms then RoomModel.Counter(app.Model().rooms[roomId]) else 0
    {
      var version := app.RoomVersion(roomId);
      counter := if version.Ok? then version.value else 0;
    }

    /** The first two steps with nothing in between. */
    method Greet(roomId: nat, allowed: set<string>) returns (told: Option<RoomStore.RoomView>, counter: nat)
      requires Valid()
      ensures Valid() && Model() == old(Model())
      ensures told == if roomId in app.Model().rooms then Some(ViewOf(app.Model().rooms[roomId], allowed)) else None
      ensures told.Some? ==> counter == told.value.roomCounter
    {
      told := TakeSnapshot(roomId, allowed);
      counter := ReadCounter(roomId);
    }

    method AddToHub(roomId: nat, id: ClientId, allowed: set<string>) returns (joined: bool, receiver: Outbound)
      requires ValidHubSide() && id !in hub.channels
      modifies hub
      ensures ValidHubSide() && (joined ==> id in hub.channels && hub.channels[id] == receiver)
      ensures hub.Model() == Step(old(hub.Model()), Add(roomId, id, allowed))
      ensures joined == (|Members(old(hub.Model()), roomId)| < MAX_CLIENTS)
    {
      receiver := new Outbound();
      joined := hub.AddClient(roomId, id, ClientInfo(allowed, receiver));
    }

    method AttachTo(roomId: nat, id: ClientId, allowed: set<string>) returns (joined: bool, receiver: Outbound)
      requires Valid() && id !in hub.channels
      modifies hub
      ensures Valid() && app.Model() == old(app.Model())
      ensures joined ==> id in hub.channels && hub.channels[id] == receiver
      ensures joined == (|Members(old(hub.Model()), roomId)| < MAX_CLIENTS)
      ensures hub.Model() == Step(old(hub.Model()), Add(roomId, id, allowed))
    {
      joined, receiver := AddToHub(roomId, id, allowed);
    }

    /** The third step: a new channel, and the client added with it. Commands may have come in between. */
    method Attach(roomId: nat, id: ClientId, allowed: set<string>) returns (joined: bool, receiver: Outbound)
      requires Valid() && id !in hub.channels
      modifies hub
      ensures Valid() && (joined ==> id in hub.channels && hub.channels[id] == receiver)
      ensures joined == (|Members(old(hub.Model()), roomId)| < MAX_CLIENTS)
      ensures StepsBy(limits, SysAct.Attach(roomId, id, allowed), old(Model()), Model())
    {
      AttachTick(limits, Model(), roomId, id, allowed);
      joined, receiver := AttachTo(roomId, id, allowed);
    }

    method RemoveFromHub(roomId: nat, id: ClientId)
      requires ValidHubSide()
      modifies hub`rooms
      ensures ValidHubSide()
      ensures hub.Model() == Step(old(hub.Model()), Remove(roomId, id))
    {
      hub.RemoveClient(roomId, id);
    }

    /** The connection is closed: its client is taken out. */
    method Leave(roomId: nat, id: ClientId)
      requires Valid()
      modifies hub`rooms
      ensures Valid()
      ensures StepsBy(limits, SysAct.Leave(roomId, id), old(Model()), Model())
    {
      LeaveTick(limits, Model(), roomId, id);
      ghost var before, rooms := HubSide(), app.Model();
      RemoveFromHub(roomId, id);
      assert app.Model() == rooms && HubSide() == before.(hub := hub.Model());
    }

    method TakeEvent(id: ClientId, receiver: Outbound) returns (event: Option<Event>)
      requires ValidHubSide() && id in hub.channels && hub.channels[id] == receiver
      modifies receiver
      ensures ValidHubSide() && hub.Model() == Step(old(hub.Model()), HubAct.Receive(id))
      ensures var ch := old(receiver.Model());
        event == if ch.open && ch.queue != [] then Some(ch.queue[0]) else None
    {
      event := hub.Take(id, receiver);
    }

    /** The connection of a client takes its oldest event. */
    method Receive(id: ClientId, receiver: Outbound) returns (event: Option<Event>)
      requires Valid() && id in hub.channels && hub.channels[id] == receiver
      modifies receiver
      ensures Valid()
      ensures StepsBy(limits, SysAct.Receive(id), old(Model()), Model())
      ensures var ch := old(receiver.Model());
        event == if ch.open && ch.queue != [] then Some(ch.queue[0]) else None
    {
      ChannelTick(limits, Model(), id);
      ghost var before, rooms := HubSide(), app.Model();
      event := TakeEvent(id, receiver);
      assert app.Model() == rooms && HubSide() == before.(hub := hub.Model());
    }

    method DropChannel(id: ClientId, receiver: Outbound)
      requires ValidHubSide() && id in hub.channels && hub.channels[id] == receiver
      modifies receiver
      ensures ValidHubSide() && hub.Model() == Step(old(hub.Model()), HubAct.Hangup(id))
    {
      hub.Drop(id, receiver);
    }

    /** The connection of a client is gone, and with it what was queued. */
    method Hangup(id: ClientId, receiver: Outbound)
      requires Valid() && id in hub.channels && hub.channels[id] == receiver
      modifies receiver
      ensures Valid()
      ensures StepsBy(limits, SysAct.Hangup(id), old(Model()), Model())
    {
      ChannelTick(limits, Model(), id);
      ghost var before, rooms := HubSide(), app.Model();
      DropChannel(id, receiver);
      assert app.Model() == rooms && HubSide() == before.(hub := hub.Model());
    }

    /** All of joining, with nothing in between. None when the room does not exist; not joined when it is full. */
    method Join(roomId: nat, id: ClientId, allowed: set<string>)
      returns (told: Option<RoomStore.RoomView>, counter: nat, joined: bool, receiver: Option<Outbound>)
      requires Valid() && id !in hub.channels
      modifies hub
      ensures Valid()
      ensures joined ==> id in hub.channels && receiver == Some(hub.channels[id])
      ensures var rooms := old(app.Model()).rooms;
        told == if roomId in rooms then Some(ViewOf(rooms[roomId], allowed)) else None
      ensures told.Some? ==> counter == told.value.roomCounter
      ensures joined == (told.Some? && |Members(old(hub.Model()), roomId)| < MAX_CLIENTS)
      ensures if told.Some? then StepsBy(limits, SysAct.Attach(roomId, id, allowed), old(Model()), Model())
              else Model() == old(Model())
    {
      told, counter := Greet(roomId, allowed);
      joined, receiver := false, None;
      if told.Some? {
        var channel;
        joined, channel := Attach(roomId, id, allowed);
        receiver := Some(channel);
      }
    }
  }

  ghost function ViewOf(r: RoomModel.Room, allowed: set<string>): RoomStore.RoomView {
    RoomStore.RoomView(RoomModel.Counter(r), RoomModel.Snapshot(r, allowed))
  }

  /** A step that asks no limiter and takes no time. */
  ghost predicate StepsBy(limits: Limits, act: SysAct, before: World, after: World) {
    var t := Tick(act, 0, NO_VISITS, before.clock);
    TickFits(limits, before, t) && after == Next(limits, before, t)
  }

  lemma AttachTick(limits: Limits, before: World, roomId: nat, id: ClientId, allowed: set<string>)
    ensures var act := SysAct.Attach(roomId, id, allowed);
      StepsBy(limits, act, before, before.(sys := before.sys.(hub := Step(before.sys.hub, Add(roomId, id, allowed)))))
  {
    SilentTick(limits, before, SysAct.Attach(roomId, id, allowed));
    HubTakesTick(before.sys, Tick(SysAct.Attach(roomId, id, allowed), 0, NO_VISITS, before.clock));
  }

  lemma LeaveTick(limits: Limits, before: World, roomId: nat, id: ClientId)
    ensures StepsBy(limits, SysAct.Leave(roomId, id), before,
                    before.(sys := before.sys.(hub := Step(before.sys.hub, Remove(roomId, id)))))
  {
    SilentTick(limits, before, SysAct.Leave(roomId, id));
    HubTakesTick(before.sys, Tick(SysAct.Leave(roomId, id), 0, NO_VISITS, before.clock));
  }

  lemma ChannelTick(limits: Limits, before: World, id: ClientId)
    ensures StepsBy(limits, SysAct.Receive(id), before,
                    before.(sys := before.sys.(hub := Step(before.sys.hub, HubAct.Receive(id)))))
    ensures StepsBy(limits, SysAct.Hangup(id), before,
                    before.(sys := before.sys.(hub := Step(before.sys.hub, HubAct.Hangup(id)))))
  {
    SilentTick(limits, before, SysAct.Receive(id));
    HubTakesTick(before.sys, Tick(SysAct.Receive(id), 0, NO_VISITS, before.clock));
    SilentTick(limits, before, SysAct.Hangup(id));
    HubTakesTick(before.sys, Tick(SysAct.Hangup(id), 0, NO_VISITS, before.clock));
  }

  /** What the limiter answers to further calls, from what it has answered by then. */
  lemma VerdictOf(before: seq<Call>, calls: seq<Call>, verdicts: seq<bool>)
    requires RateLimiter.Answers(map[], before + calls) == RateLimiter.Answers(map[], before) + verdicts
    ensures RateLimiter.Answers(After(map[], before), calls) == verdicts
  {
    RunsConcat(map[], before, calls);
    var all, first := RateLimiter.Answers(map[], before + calls), RateLimiter.Answers(map[], before);
    assert all[|first|..] == verdicts && all[|first|..] == RateLimiter.Answers(After(map[], before), calls);
  }

  /** The hub after the cleanup that follows a recognised deletion. */
  function Cleaned(hub: Hub, resp: Response, line: string): Hub {
    if resp == Plain && CleanupOf(line).Some? then Step(hub, RemoveRoom(CleanupOf(line).value)) else hub
  }

  /** What a line does to the hub's side once its response is known. */
  ghost predicate Followed(limits: Limits, resp: Response, line: string, updates: seq<RoomUpdate>, before: Side,
                           after: Side, p: Publication)
  {
    var cleaned := before.(hub := Cleaned(before.hub, resp, line));
    if updates == [] then after == cleaned && p == NOTHING_PUBLISHED
    else PublishedAs(limits, updates[0], cleaned, after, p)
  }

  /** The steps of the system that a line is: none when it changes nothing, else one. */
  ghost predicate IsLine(parsed: Parsed<Commands.Command>, line: string, ticks: seq<Tick>) {
    if parsed.Err? || OpOf(parsed.value).None? then ticks == []
    else
      && |ticks| == 1 && ticks[0].act.Command? && ticks[0].act.op == OpOf(parsed.value).value
      && ticks[0].act.cleaned == CleanupOf(line).Some?
  }

  function TicksFor(parsed: Parsed<Commands.Command>, line: string, p: Publication, end: nat): seq<Tick> {
    if parsed.Err? || OpOf(parsed.value).None? then []
    else
      var act := SysAct.Command(OpOf(parsed.value).value, p.skipped, CleanupOf(line).Some?, p.refused);
      [Tick(act, p.asked, p.turns, end)]
  }

  /** Only a deletion of the very room leads to cleanup, and a deletion emits nothing. */
  lemma CleanupIsOfDeletion(app: App, line: string, json: JsonParser, resp: Response, updates: seq<RoomUpdate>)
    requires Tokenizer.TrimStart(line) == line
    requires Processed(app, Parse(line, json), resp, updates)
    ensures |updates| <= 1
    ensures resp == Plain && CleanupOf(line).Some? ==>
      updates == [] && Parse(line, json) == Ok(RoomDelete(CleanupOf(line).value)) && CleanupOf(line).value in app.rooms
    ensures Parse(line, json).Ok? && !Parse(line, json).value.RoomDelete? ==> CleanupOf(line).None?
  {
    var parsed := Parse(line, json);
    if parsed.Ok? && CleanupOf(line).Some? {
      OnlyDeletionCleans(line, json);
      DeletionIsCleanedIff(line, json, parsed.value.id);
    }
  }

  lemma LineTicks(limits: Limits, rooms: App, line: string, json: JsonParser, resp: Response, updates: seq<RoomUpdate>,
                  before: Side, after: Side, p: Publication)
    requires Tokenizer.TrimStart(line) == line
    requires Processed(rooms, Parse(line, json), resp, updates)
    requires Followed(limits, resp, line, updates, before, after, p)
    ensures var ticks := TicksFor(Parse(line, json), line, p, after.clock);
      && TicksFit(limits, Whole(rooms, before), ticks)
      && RunWorld(limits, Whole(rooms, before), ticks) == Whole(AppAfter(rooms, Parse(line, json)), after)
  {
    CleanupIsOfDeletion(rooms, line, json, resp, updates);
    var parsed, w := Parse(line, json), Whole(rooms, before);
    if parsed.Ok? && OpOf(parsed.value).Some? {
      var op, cleaned := OpOf(parsed.value).value, CleanupOf(line).Some?;
      var ticks := TicksFor(parsed, line, p, after.clock);
      if updates != [] {
        assert updates == [updates[0]];
        PublishedTick(limits, rooms, op, cleaned, updates[0], before, after, p);
      } else {
        var act := SysAct.Command(op, false, cleaned, {});
        SilentTick(limits, w, act);
        SilentStep(Sys(rooms, before.hub), line, json, resp, act);
      }
      OneTick(limits, w, ticks[0]);
    }
  }

  /**
    What a line amounts to, said of the rooms and the hub themselves: a line that cannot be read
    changes nothing, a command has its effect and answer, and a deletion cleans the hub or not.
   */
  ghost predicate LineDone(line: string, json: JsonParser, before: World, after: World, resp: Response) {
    var parsed := Parse(line, json);
    && (parsed.Err? ==> after == before && resp == Error(parsed.error))
    && (parsed.Ok? ==> CommandLaws.Effect(before.sys.app, parsed.value, after.sys.app, resp))
    && SystemLaws.DeletionDone(line, json, before.sys, after.sys.hub)
  }

  lemma LineIsDone(limits: Limits, line: string, json: JsonParser, before: World, resp: Response,
                   updates: seq<RoomUpdate>, ticks: seq<Tick>)
    requires Tokenizer.TrimStart(line) == line && ValidApp(before.sys.app)
    requires Processed(before.sys.app, Parse(line, json), resp, updates)
    requires IsLine(Parse(line, json), line, ticks)
    requires RunWorld(limits, before, ticks).sys.app == AppAfter(before.sys.app, Parse(line, json))
    ensures LineDone(line, json, before, RunWorld(limits, before, ticks), resp)
  {
    var parsed := Parse(line, json);
    if parsed.Ok? {
      CommandLaws.CommandEffect(before.sys.app, parsed.value, resp, updates);
      if ticks != [] {
        assert ticks[1..] == [];
        assert RunWorld(limits, before, ticks) == RunWorld(limits, Next(limits, before, ticks[0]), []);
        SystemLaws.DeletionLine(before.sys, line, json, ticks[0].act);
      }
    }
  }

  /** A command that emits nothing is, for the hub, its cleanup. */
  lemma SilentStep(before: Sys, line: string, json: JsonParser, resp: Response, act: SysAct)
    requires Tokenizer.TrimStart(line) == line
    requires Processed(before.app, Parse(line, json), resp, [])
    requires act.Command? && act.cleaned == CleanupOf(line).Some?
    requires Parse(line, json).Ok? && OpOf(Parse(line, json).value) == Some(act.op)
    ensures SysStep(before, act) == Sys(Perform(before.app, act.op).0, Cleaned(before.hub, resp, line))
  {
    var parsed, acts := Parse(line, json), HubActs(before.app, act);
    CleanupIsOfDeletion(before.app, line, json, resp, []);
    if CleanupOf(line).Some? {
      DeletionIsCleanedIff(line, json, parsed.value.id);
    }
    OneOp(before.app, act.op);
    if acts != [] {
      assert acts == [acts[0]] && acts[1..] == [];
      assert RunHub(before.hub, acts) == RunHub(Step(before.hub, acts[0]), []);
    }
  }
}
