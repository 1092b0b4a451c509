/** What each step of the whole system does to the hub and to one client, said of members, queues and events. */
module SystemLaws {
  import opened Data
  import opened HubModel
  import opened AppModel
  import opened ServerModel
  import opened CommandLaws
  import Commands
  import Mirror
  import Tokenizer

  // ---------------------------------------------------------------- clients coming, receiving and going

  lemma OneHubAct(s: Sys, act: SysAct)
    ensures var acts := HubActs(s.app, act);
      SysStep(s, act).hub == if acts == [] then s.hub else Step(s.hub, acts[0])
    ensures |HubActs(s.app, act)| <= 1
  {
    var acts := HubActs(s.app, act);
    if acts != [] {
      assert acts[1..] == [];
      assert RunHub(s.hub, acts) == RunHub(Step(s.hub, acts[0]), []);
    }
  }

  /** Attaching and leaving change the members of one room, and nothing else but the new client's channel. */
  lemma AttachAndLeave(s: Sys, roomId: nat, id: ClientId, allowed: set<string>)
    ensures var s' := SysStep(s, Attach(roomId, id, allowed));
      if |Members(s.hub, roomId)| >= 200 then s' == s
      else
        && s'.app == s.app && Members(s'.hub, roomId) == Members(s.hub, roomId)[id := allowed]
        && (forall r | r != roomId :: Members(s'.hub, r) == Members(s.hub, r))
        && s'.hub.channels == s.hub.channels[id := Channel([], [], true)]
    ensures var s' := SysStep(s, Leave(roomId, id));
      && s'.app == s.app && Members(s'.hub, roomId) == Members(s.hub, roomId) - {id}
      && (forall r | r != roomId :: Members(s'.hub, r) == Members(s.hub, r))
      && s'.hub.channels == s.hub.channels
  {
    OneHubAct(s, Attach(roomId, id, allowed));
    OneHubAct(s, Leave(roomId, id));
  }

  /** A receive takes out the oldest event; a hang-up closes the channel and loses what is queued. */
  lemma ReceiveAndHangup(s: Sys, id: ClientId)
    requires id in s.hub.channels
    ensures var ch, s' := s.hub.channels[id], SysStep(s, SysAct.Receive(id));
      && s'.app == s.app && s'.hub.rooms == s.hub.rooms
      && s'.hub.channels
         == if ch.open && ch.queue != [] then
              s.hub.channels[id := Channel(ch.queue[1..], ch.received + [ch.queue[0]], true)]
            else s.hub.channels
    ensures var s' := SysStep(s, SysAct.Hangup(id));
      && s'.app == s.app && s'.hub.rooms == s.hub.rooms
      && s'.hub.channels == s.hub.channels[id := Channel([], s.hub.channels[id].received, false)]
  {
    OneHubAct(s, SysAct.Receive(id));
    OneHubAct(s, SysAct.Hangup(id));
  }

  // ---------------------------------------------------------------- commands

  ghost predicate MayRead(e: Event, allowed: set<string>) {
    e.CounterEvent? || e.container == "*" || e.container == "public" || e.container in allowed
  }

  /** All clients of the room are out, those of other rooms stay, and every channel keeps what is queued. */
  ghost predicate RoomCleaned(before: Hub, after: Hub, id: nat) {
    && Members(after, id) == map[]
    && (forall r | r != id :: Members(after, r) == Members(before, r))
    && after.channels == before.channels
  }

  /** A command does one of three things to the hub: it cleans a deleted room, it does nothing, or it broadcasts. */
  lemma CommandOnHub(s: Sys, act: SysAct, u: RoomUpdate)
    requires act.Command?
    ensures var event, hub' := EventFor(s.app, act.op), SysStep(s, act).hub;
      if act.op.DeleteRoom? then
        if act.op.id in s.app.rooms && act.cleaned then RoomCleaned(s.hub, hub', act.op.id) else hub' == s.hub
      else if event.None? || act.skipped then hub' == s.hub
      else Commands.UpdatesFor(s.app, act.op) == [u] ==>
        Announces([u], event) && hub' == Step(s.hub, Broadcast(u, act.refused))
  {
    OneHubAct(s, act);
    OperationAnnounces(s.app, act.op);
  }

  /**
    What a command does to one client: it is sent the command's event, at the end of its queue, exactly
    if the event is for its room and its containers, the update is not withheld, the limiter does not
    refuse it, and its channel is open and holds fewer than 256 events. If only its side is in the
    way it is out of the room, as it is when the room is deleted and cleaned; otherwise it stays.
   */
  lemma CommandOnClient(s: Sys, act: SysAct, roomId: nat, id: ClientId)
    requires ValidHub(s.hub) && act.Command? && InRoom(s.hub, roomId, id)
    ensures id in s.hub.channels && id in SysStep(s, act).hub.channels
    ensures var event, hub', before := EventFor(s.app, act.op), SysStep(s, act).hub, s.hub.channels[id];
      var meant := event.Some? && !act.skipped && event.value.roomId == roomId
                   && MayRead(event.value, s.hub.rooms[roomId][id]);
      var able := id !in act.refused && before.open && |before.queue| < 256;
      && hub'.channels[id]
         == (if meant && able then Channel(before.queue + [event.value], before.received, true) else before)
      && (InRoom(hub', roomId, id)
          <==> (meant ==> able) && !(act.op == DeleteRoom(roomId) && roomId in s.app.rooms && act.cleaned))
  {
    OneHubAct(s, act);
    OperationAnnounces(s.app, act.op);
    var event := EventFor(s.app, act.op);
    if act.op.DeleteRoom? {
      if act.op.id in s.app.rooms && act.cleaned {
        LeavesIff(s.hub, RemoveRoom(act.op.id), roomId, id);
      }
    } else if event.Some? && !act.skipped {
      var u := Commands.UpdatesFor(s.app, act.op)[0];
      LeavesIff(s.hub, Broadcast(u, act.refused), roomId, id);
      SentOnBroadcast(s.hub, u, act.refused, roomId, id);
    }
  }

  lemma SentOnBroadcast(h: Hub, u: RoomUpdate, refused: set<ClientId>, roomId: nat, id: ClientId)
    requires ValidHub(h) && InRoom(h, roomId, id)
    ensures id in h.channels
    ensures var ch := h.channels[id];
      Step(h, Broadcast(u, refused)).channels[id]
      == if u.roomId == roomId && Matches(u.container, h.rooms[roomId][id]) && id !in refused
            && ch.open && |ch.queue| < 256
         then Channel(ch.queue + [EventOf(u)], ch.received, true) else ch
  {
    if u.roomId != roomId {
      assert !InRoom(h, u.roomId, id);
    }
    BroadcastChannel(h, u, refused, id);
  }

  // ---------------------------------------------------------------- deletion lines

  /** Neither the verb nor the first argument of a line is written in quotes. */
  predicate PlainWords(line: string) {
    && line != [] && line[0] != '"' && Tokenizer.TakeToken(line).Ok?
    && var arg := Tokenizer.TrimStart(Tokenizer.TakeToken(line).value.1);
       arg != [] && arg[0] != '"'
  }

  /** After a deletion's line the hub is cleaned of that room if it was there and the line is plain, else untouched. */
  ghost predicate DeletionDone(line: string, json: Commands.JsonParser, before: Sys, after: Hub) {
    var parsed := Commands.Parse(line, json);
    parsed.Ok? && parsed.value.RoomDelete? ==>
      if parsed.value.id in before.app.rooms && PlainWords(line) then RoomCleaned(before.hub, after, parsed.value.id)
      else after == before.hub
  }

  lemma DeletionLine(before: Sys, line: string, json: Commands.JsonParser, act: SysAct)
    requires Tokenizer.TrimStart(line) == line && Commands.Parse(line, json).Ok?
    requires act.Command? && Commands.OpOf(Commands.Parse(line, json).value) == Some(act.op)
    requires act.cleaned == Commands.CleanupOf(line).Some?
    ensures DeletionDone(line, json, before, SysStep(before, act).hub)
  {
    var cmd := Commands.Parse(line, json).value;
    if cmd.RoomDelete? {
      Commands.DeletionIsCleanedIff(line, json, cmd.id);
      OneHubAct(before, act);
    }
  }

  // ---------------------------------------------------------------- what a subscriber's receives return

  /** What the receives of one client return during a run of the system. */
  ghost function SysReturned(s: Sys, acts: seq<SysAct>, id: ClientId): seq<Event>
    decreases acts
  {
    if acts == [] then []
    else
      var later := SysReturned(SysStep(s, acts[0]), acts[1..], id);
      if acts[0] == SysAct.Receive(id) && id in s.hub.channels && s.hub.channels[id].open
         && s.hub.channels[id].queue != []
      then [s.hub.channels[id].queue[0]] + later else later
  }

  lemma {:induction false} ReturnedIsSys(s: Sys, acts: seq<SysAct>, id: ClientId)
    ensures Returned(s.hub, AllHubActs(s, acts), id) == SysReturned(s, acts, id)
    decreases acts
  {
    if acts != [] {
      var s1, first := SysStep(s, acts[0]), HubActs(s.app, acts[0]);
      OneHubAct(s, acts[0]);
      ReturnedIsSys(s1, acts[1..], id);
      if first == [] {
        assert AllHubActs(s, acts) == AllHubActs(s1, acts[1..]);
      } else {
        assert AllHubActs(s, acts)[0] == first[0] && AllHubActs(s, acts)[1..] == AllHubActs(s1, acts[1..]);
      }
    }
  }

  /**
    Over every serial run, what a subscriber is taken to have received is what its receives
    returned, one event after the other, and that is a prefix of what its room announced to it.
   */
  lemma SubscriberReceives(x: Session)
    requires x.Wf()
    ensures x.id in x.Finish().hub.channels
    ensures var returned := SysReturned(x.Added(), x.acts, x.id);
      && x.Channel().received == returned
      && returned <= Mirror.ClientEvents(Mirror.Announced(x.roomId, x.Start(), x.Story()), x.allowed)
  {
    SentIsAnnounced(x);
    SessionStory(x);
    JoinedIsAlive(x.AtAdd(), x.roomId, x.id, x.allowed);
    HubHalf(x.Added(), x.acts);
    ReceivedIsReturned(x.Added().hub, AllHubActs(x.Added(), x.acts), x.id);
    ReturnedIsSys(x.Added(), x.acts, x.id);
    var returned := SysReturned(x.Added(), x.acts, x.id);
    assert [] + returned == returned;
    assert x.Channel().received <= x.Channel().Sent();
  }
}
