/**
  The whole system as values: rooms and hub, one command at a time, clients joining, receiving
  and leaving; and what a subscriber knows over every run.
 */
module ServerModel {
  import opened Data
  import opened WriteLog
  import opened AppModel
  import opened HubModel
  import opened Mirror
  import opened Resume
  import opened Commands
  import RoomModel

  datatype Sys = Sys(app: App, hub: Hub)

  /**
    One step of the serial loop, or of a client. `skipped` is the room-level limiter's refusal,
    `cleaned` whether the line of a deletion was recognised for hub cleanup, and `refused` the
    clients that the per-client limiter refused.
   */
  datatype SysAct =
    | Command(op: AppOp, skipped: bool, cleaned: bool, refused: set<ClientId>)
    | Attach(roomId: nat, id: ClientId, allowed: set<string>)
    | Leave(roomId: nat, id: ClientId)
    | Receive(id: ClientId)
    | Hangup(id: ClientId)

  /** The hub's share of a step. */
  ghost function HubActs(app: App, act: SysAct): seq<HubAct> {
    match act
    case Command(op, skipped, cleaned, refused) =>
      var updates := UpdatesFor(app, op);
      if op.DeleteRoom? && op.id in app.rooms && cleaned then [RemoveRoom(op.id)]
      else if updates != [] && !skipped then [Broadcast(updates[0], refused)]
      else []
    case Attach(roomId, id, allowed) => [Add(roomId, id, allowed)]
    case Leave(roomId, id) => [Remove(roomId, id)]
    case Receive(id) => [HubAct.Receive(id)]
    case Hangup(id) => [HubAct.Hangup(id)]
  }

  /** The store's share of a step. */
  function AppOps(act: SysAct): seq<AppOp> {
    if act.Command? then [act.op] else []
  }

  ghost function SysStep(s: Sys, act: SysAct): Sys {
    Sys(RunApp(s.app, AppOps(act)), RunHub(s.hub, HubActs(s.app, act)))
  }

  ghost function RunSys(s: Sys, acts: seq<SysAct>): Sys
    decreases acts
  {
    if acts == [] then s else RunSys(SysStep(s, acts[0]), acts[1..])
  }

  ghost predicate ValidSys(s: Sys) {
    ValidApp(s.app) && ValidHub(s.hub)
  }

  ghost predicate FreshJoins(s: Sys, acts: seq<SysAct>)
    decreases acts
  {
    acts != [] ==>
      && (acts[0].Attach? ==> acts[0].id !in s.hub.channels)
      && FreshJoins(SysStep(s, acts[0]), acts[1..])
  }

  function AllOps(acts: seq<SysAct>): seq<AppOp> {
    if acts == [] then [] else AppOps(acts[0]) + AllOps(acts[1..])
  }

  ghost function AllHubActs(s: Sys, acts: seq<SysAct>): seq<HubAct>
    decreases acts
  {
    if acts == [] then [] else HubActs(s.app, acts[0]) + AllHubActs(SysStep(s, acts[0]), acts[1..])
  }

  // ---------------------------------------------------------------- the two halves of a run

  lemma {:induction false} RunHubConcat(h: Hub, a: seq<HubAct>, b: seq<HubAct>)
    ensures RunHub(h, a + b) == RunHub(RunHub(h, a), b)
    ensures FreshIds(h, a) && FreshIds(RunHub(h, a), b) ==> FreshIds(h, a + b)
    decreases a
  {
    if a == [] {
      assert a + b == b;
    } else {
      assert (a + b)[1..] == a[1..] + b;
      RunHubConcat(Step(h, a[0]), a[1..], b);
    }
  }

  lemma {:induction false} RunAppConcat(app: App, a: seq<AppOp>, b: seq<AppOp>)
    ensures RunApp(app, a + b) == RunApp(RunApp(app, a), b)
    decreases a
  {
    if a == [] {
      assert a + b == b;
    } else {
      assert (a + b)[1..] == a[1..] + b;
      RunAppConcat(Perform(app, a[0]).0, a[1..], b);
    }
  }

  lemma StepIsFresh(s: Sys, act: SysAct)
    requires act.Attach? ==> act.id !in s.hub.channels
    ensures FreshIds(s.hub, HubActs(s.app, act))
  {
    var acts := HubActs(s.app, act);
    if acts != [] {
      assert acts == [acts[0]] && acts[1..] == [];
      assert FreshIds(Step(s.hub, acts[0]), []);
    }
  }

  lemma {:induction false} AppHalf(s: Sys, acts: seq<SysAct>)
    ensures RunSys(s, acts).app == RunApp(s.app, AllOps(acts))
    decreases acts
  {
    if acts != [] {
      AppHalf(SysStep(s, acts[0]), acts[1..]);
      RunAppConcat(s.app, AppOps(acts[0]), AllOps(acts[1..]));
    }
  }

  lemma {:induction false} HubHalf(s: Sys, acts: seq<SysAct>)
    requires FreshJoins(s, acts)
    ensures RunSys(s, acts).hub == RunHub(s.hub, AllHubActs(s, acts))
    ensures FreshIds(s.hub, AllHubActs(s, acts))
    decreases acts
  {
    if acts != [] {
      var s1 := SysStep(s, acts[0]);
      StepIsFresh(s, acts[0]);
      HubHalf(s1, acts[1..]);
      RunHubConcat(s.hub, HubActs(s.app, acts[0]), AllHubActs(s1, acts[1..]));
    }
  }

  lemma RunKeepsValid(s: Sys, acts: seq<SysAct>)
    requires ValidSys(s) && FreshJoins(s, acts)
    ensures ValidSys(RunSys(s, acts))
  {
    AppHalf(s, acts);
    HubHalf(s, acts);
    IdsAscend(s.app, AllOps(acts));
    ReachableHubs(s.hub, AllHubActs(s, acts));
  }

  /** Every reachable system is valid: ids in use were handed out, rooms and queues are within bounds. */
  lemma ReachableSystems(acts: seq<SysAct>)
    requires FreshJoins(Sys(FRESH_APP, EMPTY_HUB), acts)
    ensures ValidSys(RunSys(Sys(FRESH_APP, EMPTY_HUB), acts))
  {
    RunKeepsValid(Sys(FRESH_APP, EMPTY_HUB), acts);
  }

  // ---------------------------------------------------------------- one room's share

  ghost predicate IsFor(act: SysAct, roomId: nat) {
    act.Command? && act.op.OnRoom? && act.op.id == roomId
  }

  /** The operations that a run performs on one room, and which of their updates were withheld. */
  function RoomActs(acts: seq<SysAct>, roomId: nat): seq<RoomAct> {
    if acts == [] then []
    else
      var later := RoomActs(acts[1..], roomId);
      if acts[0].Command? && acts[0].op.OnRoom? && acts[0].op.id == roomId then
        [RoomAct(acts[0].op.op, acts[0].skipped)] + later
      else later
  }

  /** What one step broadcasts to a room is what its operation on that room announces. */
  lemma StepEvents(s: Sys, act: SysAct, roomId: nat, allowed: set<string>)
    requires roomId in s.app.rooms
    ensures MatchingEvents(HubActs(s.app, act), roomId, allowed)
         == if IsFor(act, roomId) then
              ClientEvents(StepUpdates(roomId, s.app.rooms[roomId], RoomAct(act.op.op, act.skipped)), allowed)
            else []
  {
    var acts := HubActs(s.app, act);
    if acts != [] {
      EventsOfOne(acts[0], roomId, allowed);
      assert acts == [acts[0]];
      if act.Command? && act.op.OnRoom? {
        var updates := UpdatesFor(s.app, act.op);
        OneUpdate(updates[0], allowed);
        assert updates == [updates[0]];
      }
    }
  }

  lemma StepRoom(s: Sys, act: SysAct, later: seq<SysAct>, roomId: nat)
    requires ValidApp(s.app) && roomId in s.app.rooms
    requires roomId in RunSys(SysStep(s, act), later).app.rooms
    ensures ValidApp(SysStep(s, act).app) && roomId in SysStep(s, act).app.rooms
    ensures SysStep(s, act).app.rooms[roomId]
         == if IsFor(act, roomId) then RoomModel.Apply(s.app.rooms[roomId], act.op.op).0 else s.app.rooms[roomId]
  {
    var s1 := SysStep(s, act);
    AppHalf(s1, later);
    if act.Command? {
      var next := Perform(s.app, act.op).0;
      assert AppOps(act)[1..] == [];
      assert s1.app == RunApp(next, []) == next;
      if roomId !in next.rooms {
        GoneForever(next, AllOps(later), roomId);
      }
    }
  }

  /**
    Over every run, withheld updates or not: a room ends where its own operations lead, and the
    matching events broadcast to it are those that its operations announce, in order.
   */
  lemma {:induction false} BroadcastsAreEmitted(s: Sys, acts: seq<SysAct>, roomId: nat, allowed: set<string>)
    requires ValidApp(s.app) && roomId in s.app.rooms
    requires roomId in RunSys(s, acts).app.rooms
    ensures RunSys(s, acts).app.rooms[roomId] == RoomAfter(s.app.rooms[roomId], RoomActs(acts, roomId))
    ensures MatchingEvents(AllHubActs(s, acts), roomId, allowed)
         == ClientEvents(Announced(roomId, s.app.rooms[roomId], RoomActs(acts, roomId)), allowed)
    decreases acts
  {
    if acts != [] {
      var act, s1, later := acts[0], SysStep(s, acts[0]), RoomActs(acts[1..], roomId);
      StepRoom(s, act, acts[1..], roomId);
      BroadcastsAreEmitted(s1, acts[1..], roomId, allowed);
      StepEvents(s, act, roomId, allowed);
      MatchingConcat(HubActs(s.app, act), AllHubActs(s1, acts[1..]), roomId, allowed);
      if IsFor(act, roomId) {
        assert RoomActs(acts, roomId)[0] == RoomAct(act.op.op, act.skipped) && RoomActs(acts, roomId)[1..] == later;
        EventsUnfold(roomId, s.app.rooms[roomId], RoomActs(acts, roomId), later, allowed);
      }
    }
  }

  // ---------------------------------------------------------------- deletions

  /** No event that says "deleted" is anywhere in the hub's channels. */
  ghost predicate NoDeletedEvents(h: Hub) {
    forall id | id in h.channels :: forall e | e in h.channels[id].Sent() :: !e.DeletedEvent?
  }

  lemma StepSendsNoDeletion(h: Hub, act: HubAct)
    requires NoDeletedEvents(h)
    requires act.Broadcast? ==> ValueOrStar(act.update)
    ensures NoDeletedEvents(Step(h, act))
  {
    var h' := Step(h, act);
    forall id | id in h'.channels
      ensures forall e | e in h'.channels[id].Sent() :: !e.DeletedEvent?
    {
      match act {
        case Add(_, x, _) => assert id != x ==> h'.channels[id] == h.channels[id];
        case Remove(_, _) =>
        case RemoveRoom(_) =>
        case Broadcast(u, refused) => BroadcastChannel(h, u, refused, id);
        case Receive(x) => if x in h.channels { SentStays(h.channels[x]); }
        case Hangup(x) => if x in h.channels { SentStays(h.channels[x]); }
      }
    }
  }

  lemma {:induction false} RunSendsNoDeletion(s: Sys, acts: seq<SysAct>)
    requires NoDeletedEvents(s.hub)
    ensures NoDeletedEvents(RunSys(s, acts).hub)
    decreases acts
  {
    if acts != [] {
      var hubActs := HubActs(s.app, acts[0]);
      if hubActs != [] {
        StepSendsNoDeletion(s.hub, hubActs[0]);
        assert hubActs[1..] == [] && SysStep(s, acts[0]).hub == RunHub(Step(s.hub, hubActs[0]), []);
      }
      RunSendsNoDeletion(SysStep(s, acts[0]), acts[1..]);
    }
  }

  /** Over every run of the system, no client is ever sent an event that says "deleted". */
  lemma NoDeletedEventIsSent(acts: seq<SysAct>)
    ensures NoDeletedEvents(RunSys(Sys(FRESH_APP, EMPTY_HUB), acts).hub)
  {
    RunSendsNoDeletion(Sys(FRESH_APP, EMPTY_HUB), acts);
  }

  /** What every accepted DEL is announced as: a null value, or a counter event for the pair "*","*". */
  lemma DeletionIsAnnouncedAsNull(app: App, id: nat, c: string, k: string)
    ensures var op := OnRoom(id, RoomModel.Del(c, k));
      var (next, reply) := Perform(app, op);
      if reply.Done? then
        && id in next.rooms && |UpdatesFor(app, op)| == 1
        && var counter := RoomModel.Counter(next.rooms[id]);
           EventOf(UpdatesFor(app, op)[0])
           == if c == STAR && k == STAR then CounterEvent(id, counter) else KeyEvent(id, counter, c, k, Null)
      else UpdatesFor(app, op) == []
  {
  }

  // ---------------------------------------------------------------- subscribers

  /**
    One subscription: the snapshot is taken at `start`, the counter is read after `before`, the
    client is added after `between`, and `acts` is what happens from then on. The source takes
    these three steps one by one, so other commands can come in between.
   */
  datatype Session = Session(start: Sys, before: seq<SysAct>, between: seq<SysAct>, roomId: nat, id: ClientId,
                             allowed: set<string>, acts: seq<SysAct>)
  {
    ghost function AtCounter(): Sys { RunSys(start, before) }

    ghost function AtAdd(): Sys { RunSys(AtCounter(), between) }

    ghost function Added(): Sys { SysStep(AtAdd(), Attach(roomId, id, allowed)) }

    ghost function Finish(): Sys { RunSys(Added(), acts) }

    /** Client ids are fresh, there is place for the client, and the room is there all the time. */
    ghost predicate Wf() {
      && ValidSys(start) && FreshJoins(start, before) && FreshJoins(AtCounter(), between) && FreshJoins(Added(), acts)
      && id !in AtAdd().hub.channels && |Members(AtAdd().hub, roomId)| < MAX_CLIENTS
      && roomId in start.app.rooms && roomId in AtCounter().app.rooms && roomId in AtAdd().app.rooms
      && roomId in Finish().app.rooms
    }

    /** The room's operations as this client hears of them: nothing before it was added. */
    ghost function Story(): seq<RoomAct> {
      Unheard(RoomActs(before, roomId)) + Unheard(RoomActs(between, roomId)) + RoomActs(acts, roomId)
    }

    ghost function Start(): RoomModel.Room
      requires roomId in start.app.rooms
    {
      start.app.rooms[roomId]
    }

    ghost function Channel(): HubModel.Channel
      requires id in Finish().hub.channels
    {
      Finish().hub.channels[id]
    }
  }

  function Unheard(acts: seq<RoomAct>): seq<RoomAct> {
    if acts == [] then [] else [RoomAct(acts[0].op, true)] + Unheard(acts[1..])
  }

  lemma {:induction false} UnheardRun(roomId: nat, r: RoomModel.Room, acts: seq<RoomAct>)
    ensures RoomAfter(r, Unheard(acts)) == RoomAfter(r, acts)
    ensures Announced(roomId, r, Unheard(acts)) == []
    decreases acts
  {
    if acts != [] {
      assert Unheard(acts)[1..] == Unheard(acts[1..]);
      UnheardRun(roomId, RoomModel.Apply(r, acts[0].op).0, acts[1..]);
    }
  }

  lemma JoinedIsAlive(s: Sys, roomId: nat, id: ClientId, allowed: set<string>)
    requires ValidSys(s) && id !in s.hub.channels && |Members(s.hub, roomId)| < MAX_CLIENTS
    ensures var s1 := SysStep(s, Attach(roomId, id, allowed));
      && ValidSys(s1) && s1.app == s.app
      && Alive(s1.hub, roomId, id) && s1.hub.rooms[roomId][id] == allowed && s1.hub.channels[id] == NEW_CHANNEL
  {
    var s1, add := SysStep(s, Attach(roomId, id, allowed)), Add(roomId, id, allowed);
    assert HubActs(s.app, Attach(roomId, id, allowed)) == [add] && [add][1..] == [];
    assert s1.hub == RunHub(Step(s.hub, add), []);
    StepKeepsValid(s.hub, add);
    assert s1.hub.rooms[roomId] == Members(s.hub, roomId)[id := allowed];
  }

  /** The room as it is at each of the three steps and at the end. */
  lemma SessionRooms(x: Session)
    requires x.Wf()
    ensures var counted, added := x.AtCounter().app.rooms[x.roomId], x.AtAdd().app.rooms[x.roomId];
      && ValidSys(x.AtAdd())
      && counted == RoomAfter(x.Start(), RoomActs(x.before, x.roomId))
      && added == RoomAfter(counted, RoomActs(x.between, x.roomId))
      && x.Finish().app.rooms[x.roomId] == RoomAfter(added, RoomActs(x.acts, x.roomId))
  {
    RunKeepsValid(x.start, x.before);
    RunKeepsValid(x.AtCounter(), x.between);
    JoinedIsAlive(x.AtAdd(), x.roomId, x.id, x.allowed);
    BroadcastsAreEmitted(x.start, x.before, x.roomId, x.allowed);
    BroadcastsAreEmitted(x.AtCounter(), x.between, x.roomId, x.allowed);
    BroadcastsAreEmitted(x.Added(), x.acts, x.roomId, x.allowed);
  }

  /** Nothing is announced to the client before it is added; the room's own story goes on. */
  lemma SessionStory(x: Session)
    requires x.Wf()
    ensures var r, early := x.Start(), Unheard(RoomActs(x.before, x.roomId));
      var late := RoomActs(x.acts, x.roomId);
      && |early| <= |x.Story()| && x.Story()[..|early|] == early
      && Announced(x.roomId, r, early) == []
      && RoomAfter(r, early) == x.AtCounter().app.rooms[x.roomId]
      && RoomAfter(r, x.Story()) == x.Finish().app.rooms[x.roomId]
      && Announced(x.roomId, r, x.Story()) == Announced(x.roomId, x.AtAdd().app.rooms[x.roomId], late)
      && ValidSys(x.AtAdd())
  {
    var r1, r2 := x.AtCounter().app.rooms[x.roomId], x.AtAdd().app.rooms[x.roomId];
    SessionRooms(x);
    QuietThenLoud(x.roomId, x.Start(), RoomActs(x.before, x.roomId), RoomActs(x.between, x.roomId),
                  RoomActs(x.acts, x.roomId), r1, r2, x.Story());
  }

  /** Running `whole` from `r` ends where, and announces what, running `rest` from `next` does. */
  ghost predicate GoesOnAs(roomId: nat, r: RoomModel.Room, whole: seq<RoomAct>, next: RoomModel.Room,
                           rest: seq<RoomAct>)
  {
    RoomAfter(r, whole) == RoomAfter(next, rest) && Announced(roomId, r, whole) == Announced(roomId, next, rest)
  }

  lemma GoesOnTwice(roomId: nat, r: RoomModel.Room, a: seq<RoomAct>, r1: RoomModel.Room, b: seq<RoomAct>,
                    r2: RoomModel.Room, c: seq<RoomAct>)
    requires GoesOnAs(roomId, r, a, r1, b) && GoesOnAs(roomId, r1, b, r2, c)
    ensures GoesOnAs(roomId, r, a, r2, c)
  {
  }

  lemma QuietThenLoud(roomId: nat, r: RoomModel.Room, a: seq<RoomAct>, b: seq<RoomAct>, c: seq<RoomAct>,
                      r1: RoomModel.Room, r2: RoomModel.Room, story: seq<RoomAct>)
    requires r1 == RoomAfter(r, a) && r2 == RoomAfter(r1, b) && story == Unheard(a) + Unheard(b) + c
    ensures story[..|Unheard(a)|] == Unheard(a)
    ensures GoesOnAs(roomId, r, Unheard(a), r1, [])
    ensures GoesOnAs(roomId, r, story, r2, c)
  {
    var quiet, rest := Unheard(a), Unheard(b) + c;
    assert quiet == quiet + [] && story == quiet + rest;
    UnheardFirst(roomId, r, a, [], quiet, r1);
    UnheardFirst(roomId, r, a, rest, story, r1);
    UnheardFirst(roomId, r1, b, c, rest, r2);
    GoesOnTwice(roomId, r, story, r1, rest, r2, c);
  }

  /** A part of a run that is not heard of does not show in what is announced. */
  lemma UnheardFirst(roomId: nat, r: RoomModel.Room, acts: seq<RoomAct>, rest: seq<RoomAct>, whole: seq<RoomAct>,
                     next: RoomModel.Room)
    requires whole == Unheard(acts) + rest && next == RoomAfter(r, acts)
    ensures whole[..|Unheard(acts)|] == Unheard(acts)
    ensures GoesOnAs(roomId, r, whole, next, rest)
  {
    UnheardRun(roomId, r, acts);
    ActsConcat(roomId, r, Unheard(acts), rest, whole);
    var announced := Announced(roomId, next, rest);
    assert [] + announced == announced;
  }

  /** What was sent to a client is a prefix of what its room announced to it since it was added. */
  lemma SentIsAnnounced(x: Session)
    requires x.Wf()
    ensures var s' := x.Finish();
      var events := ClientEvents(Announced(x.roomId, x.Start(), x.Story()), x.allowed);
      && x.id in s'.hub.channels
      && x.Channel().Sent() <= events
      && (Alive(s'.hub, x.roomId, x.id) ==> x.Channel().Sent() == events)
      && s'.app.rooms[x.roomId] == RoomAfter(x.Start(), x.Story())
  {
    var s1 := x.Added();
    SessionStory(x);
    JoinedIsAlive(x.AtAdd(), x.roomId, x.id, x.allowed);
    HubHalf(s1, x.acts);
    GapFree(s1.hub, AllHubActs(s1, x.acts), x.roomId, x.id);
    BroadcastsAreEmitted(s1, x.acts, x.roomId, x.allowed);
    var events := ClientEvents(Announced(x.roomId, x.Start(), x.Story()), x.allowed);
    assert NEW_CHANNEL.Sent() == [] && [] + events == events;
  }

  /**
    Over every serial run, aborts, withheld updates and commands during the handshake included:
    while a subscriber stays in the hub, its mirror is the snapshot its room would have if the
    open transaction were committed now if and only if it was told the value of every astray key
    it may read. With nothing lost it always is. The counters it is sent never decrease.
   */
  lemma SubscriberMirror(x: Session)
    requires x.Wf()
    ensures var s', r := x.Finish(), x.Start();
      var r', story := s'.app.rooms[x.roomId], x.Story();
      x.id in s'.hub.channels && Alive(s'.hub, x.roomId, x.id) ==>
        var sent := x.Channel().Sent();
        var m := MirrorOf(RoomModel.Snapshot(r, x.allowed), sent);
        var inStep := DropStar(m) == DropStar(PendingView(r', x.allowed));
        && (inStep <==> AgreeOn(Astray(r, story), Told(x.roomId, r, story), RoomModel.Full(r'), x.allowed))
        && (RoomModel.Pending(r) == [] && Steady(r, story) ==> inStep)
        && (r'.tx.None? ==> PendingView(r', x.allowed) == RoomModel.Snapshot(r', x.allowed))
        && CountersAscend(RoomModel.Counter(r), sent)
  {
    SentIsAnnounced(x);
    MirrorInvariant(x.roomId, x.Start(), x.Story(), x.allowed);
    CountersNeverDecrease(x.roomId, x.Start(), x.Story(), x.allowed);
  }

  /** How much of its room's operations a subscriber heard of before it was told its counter. */
  ghost function ToldAt(x: Session): nat {
    |Unheard(RoomActs(x.before, x.roomId))|
  }

  /**
    Over every serial run: a subscriber cut off at any point, whether dropped by the hub or not,
    resumes from what it actually received. Its mirror overlaid with the delta since the highest
    counter it saw is the room's snapshot if and only if, for every doubtful key it may read that
    was not committed since the cut, it was told the value committed at the cut.
   */
  lemma SubscriberResumes(x: Session)
    requires x.Wf()
    ensures var s', r := x.Finish(), x.Start();
      var r', story := s'.app.rooms[x.roomId], x.Story();
      && x.id in s'.hub.channels
      && var n := |x.Channel().received|;
         && CanResume(x.roomId, r, story, ToldAt(x), x.allowed, n)
         && EventsHeard(x.roomId, r, story, x.allowed, n) == x.Channel().received
         && RoomAfter(r, story[..ToldAt(x)]) == x.AtCounter().app.rooms[x.roomId]
         && RoomAfter(r, story) == r'
         && var heard := Heard(x.roomId, r, story, ToldAt(x), x.allowed, n);
            var q := RoomAfter(r, heard);
            var resumes := DropStar(Resumed(x.roomId, r, story, ToldAt(x), x.allowed, n))
                           == DropStar(RoomModel.Snapshot(r', x.allowed));
            && q.log <= r'.log
            && (resumes <==> AgreeOn(Doubtful(r, heard) - Touched(r'.log[RoomModel.Counter(q)..]),
                                     Told(x.roomId, r, heard), q.log, x.allowed))
            && (RoomModel.Pending(r) == [] && Steady(r, story) && r'.tx.None? ==> resumes)
  {
    var r, story := x.Start(), x.Story();
    SentIsAnnounced(x);
    SessionStory(x);
    var received := x.Channel().received;
    var events := ClientEvents(Announced(x.roomId, r, story), x.allowed);
    assert received <= x.Channel().Sent() <= events;
    assert received == events[..|received|];
    ResumeIff(x.roomId, r, story, ToldAt(x), x.allowed, |received|);
    if RoomModel.Pending(r) == [] && Steady(r, story) && RoomAfter(r, story).tx.None? {
      SteadyParts(x.roomId, r, story, ToldAt(x), x.allowed, |received|);
      SteadyResumeIff(x.roomId, r, story, ToldAt(x), x.allowed, |received|);
    }
  }

  lemma SteadyParts(roomId: nat, r: RoomModel.Room, acts: seq<RoomAct>, told: nat, allowed: set<string>, n: nat)
    requires CanResume(roomId, r, acts, told, allowed, n) && Steady(r, acts)
    ensures var heard := Heard(roomId, r, acts, told, allowed, n);
      heard <= acts && Steady(r, heard) && Steady(RoomAfter(r, heard), acts[|heard|..])
  {
    var heard := Heard(roomId, r, acts, told, allowed, n);
    HeardFits(roomId, r, acts, told, allowed, n);
    SteadySplit(r, heard, acts[|heard|..], acts);
  }

  lemma {:induction false} SteadySplit(r: RoomModel.Room, a: seq<RoomAct>, b: seq<RoomAct>, whole: seq<RoomAct>)
    requires whole == a + b && Steady(r, whole)
    ensures Steady(r, a) && Steady(RoomAfter(r, a), b)
    decreases a
  {
    if a == [] {
      assert whole == b;
    } else {
      assert whole[0] == a[0] && whole[1..] == a[1..] + b;
      SteadySplit(RoomModel.Apply(r, a[0].op).0, a[1..], b, whole[1..]);
    }
  }
}
