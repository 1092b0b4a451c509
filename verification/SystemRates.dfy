/**
  The system with its clock and its two limiters: how many updates of a room can reach the hub,
  and how many events one client, in any window of a run.
 */
module SystemRates {
  import opened Data
  import opened HubModel
  import opened AppModel
  import opened Commands
  import opened ServerModel
  import opened RateLimiter
  import opened DeliveryRate
  import Decimal

  /** The limits of the two broadcast limiters. */
  datatype Limits = Limits(update: nat, updateWindow: nat, room: nat, roomWindow: nat)

  function RoomKey(roomId: nat): string {
    "room:" + Decimal.Print(roomId)
  }

  /** The system, the calls that each limiter has had, and the clock. */
  datatype World = World(sys: Sys, room: seq<Call>, clients: seq<Call>, clock: nat)

  /**
    A step of the system with its readings: when the room-level limiter was asked, the turns of
    the clients, and the clock at the end.
   */
  datatype Tick = Tick(act: SysAct, asked: nat, turns: Visits, end: nat)

  ghost function UpdateOf(s: Sys, act: SysAct): Option<RoomUpdate> {
    if act.Command? && UpdatesFor(s.app, act.op) != [] then Some(UpdatesFor(s.app, act.op)[0]) else None
  }

  /** The call of the room-level limiter: one for each update. */
  ghost function RoomCalls(limits: Limits, s: Sys, t: Tick): seq<Call> {
    var u := UpdateOf(s, t.act);
    if u.None? then [] else [Call(RoomKey(u.value.roomId), limits.room, limits.roomWindow, t.asked)]
  }

  /** The hub's share of a step, with its readings. */
  ghost function HubTicks(s: Sys, t: Tick): seq<Timed> {
    var acts := HubActs(s.app, t.act);
    if acts == [] then [] else [Timed(acts[0], if acts[0].Broadcast? then t.turns else NO_VISITS, t.end)]
  }

  ghost function ClientCalls(limits: Limits, s: Sys, t: Tick): seq<Call> {
    AllCalls(HubTicks(s, t), limits.update, limits.updateWindow)
  }

  /** An update is withheld exactly when the room-level limiter refuses its room. */
  ghost predicate RoomDecides(limits: Limits, s: Sys, room: seq<Call>, clock: nat, t: Tick) {
    && clock <= t.end
    && (UpdateOf(s, t.act).Some? ==>
          && clock <= t.asked <= t.end
          && RateLimiter.Answers(After(map[], room), RoomCalls(limits, s, t)) == [!t.act.skipped])
  }

  /** When a step's turns can start: once the room-level limiter has answered, if it was asked. */
  ghost function StartOf(s: Sys, clock: nat, t: Tick): nat {
    if UpdateOf(s, t.act).Some? then t.asked else clock
  }

  /** The room-level limiter decides, a broadcast then gives each client its turn, and the clock never goes back. */
  ghost predicate TickFits(limits: Limits, w: World, t: Tick) {
    && RoomDecides(limits, w.sys, w.room, w.clock, t)
    && RunFits(w.sys.hub, After(map[], w.clients), StartOf(w.sys, w.clock, t), HubTicks(w.sys, t), limits.update,
               limits.updateWindow)
  }

  ghost function Next(limits: Limits, w: World, t: Tick): World {
    World(SysStep(w.sys, t.act), w.room + RoomCalls(limits, w.sys, t), w.clients + ClientCalls(limits, w.sys, t), t.end)
  }

  ghost function RunWorld(limits: Limits, w: World, ticks: seq<Tick>): World
    decreases ticks
  {
    if ticks == [] then w else RunWorld(limits, Next(limits, w, ticks[0]), ticks[1..])
  }

  ghost predicate TicksFit(limits: Limits, w: World, ticks: seq<Tick>)
    decreases ticks
  {
    ticks != [] ==> TickFits(limits, w, ticks[0]) && TicksFit(limits, Next(limits, w, ticks[0]), ticks[1..])
  }

  function ActsOf(ticks: seq<Tick>): seq<SysAct> {
    if ticks == [] then [] else [ticks[0].act] + ActsOf(ticks[1..])
  }

  lemma {:induction false} WorldIsSystem(limits: Limits, w: World, ticks: seq<Tick>)
    ensures RunWorld(limits, w, ticks).sys == RunSys(w.sys, ActsOf(ticks))
    decreases ticks
  {
    if ticks != [] {
      WorldIsSystem(limits, Next(limits, w, ticks[0]), ticks[1..]);
      assert ActsOf(ticks)[1..] == ActsOf(ticks[1..]);
    }
  }

  // ---------------------------------------------------------------- histories

  /** Both limiters have only had calls with their own limits, up to now, at readings that never go back. */
  ghost predicate ValidWorld(limits: Limits, w: World) {
    && Ordered(0, w.room, w.clock, limits.room, limits.roomWindow)
    && Ordered(0, w.clients, w.clock, limits.update, limits.updateWindow)
  }

  /** A world in which neither limiter was asked yet. */
  ghost predicate Unasked(w: World) {
    w.room == [] && w.clients == []
  }

  lemma RoomCallsOrdered(limits: Limits, s: Sys, room: seq<Call>, clock: nat, t: Tick)
    requires RoomDecides(limits, s, room, clock, t)
    ensures Ordered(clock, RoomCalls(limits, s, t), t.end, limits.room, limits.roomWindow)
  {
    var calls := RoomCalls(limits, s, t);
    if calls != [] {
      assert calls[1..] == [];
    }
  }

  lemma ClientCallsOrdered(limits: Limits, w: World, t: Tick)
    requires TickFits(limits, w, t)
    ensures Ordered(w.clock, ClientCalls(limits, w.sys, t), t.end, limits.update, limits.updateWindow)
  {
    var from, ticks := StartOf(w.sys, w.clock, t), HubTicks(w.sys, t);
    RunIsOrdered(w.sys.hub, After(map[], w.clients), from, ticks, limits.update, limits.updateWindow);
    assert ClockAfter(t.end, []) == t.end && (ticks != [] ==> ticks[1..] == []);
    OrderedWider(from, ClientCalls(limits, w.sys, t), ClockAfter(from, ticks), w.clock, t.end, limits.update,
                 limits.updateWindow);
  }

  lemma NextIsValid(limits: Limits, w: World, t: Tick)
    requires ValidWorld(limits, w) && TickFits(limits, w, t)
    ensures ValidWorld(limits, Next(limits, w, t))
  {
    var next := Next(limits, w, t);
    RoomCallsOrdered(limits, w.sys, w.room, w.clock, t);
    OrderedConcat(0, w.room, w.clock, RoomCalls(limits, w.sys, t), t.end, limits.room, limits.roomWindow, next.room);
    ClientCallsOrdered(limits, w, t);
    OrderedConcat(0, w.clients, w.clock, ClientCalls(limits, w.sys, t), t.end, limits.update, limits.updateWindow,
                  next.clients);
  }

  /** Every world that is reached from one in which no limiter was asked yet. */
  lemma {:induction false} ReachableWorlds(limits: Limits, w: World, ticks: seq<Tick>)
    requires (Unasked(w) || ValidWorld(limits, w)) && TicksFit(limits, w, ticks)
    ensures ValidWorld(limits, RunWorld(limits, w, ticks))
    decreases ticks
  {
    if ticks != [] {
      NextIsValid(limits, w, ticks[0]);
      ReachableWorlds(limits, Next(limits, w, ticks[0]), ticks[1..]);
    }
  }

  // ---------------------------------------------------------------- one room

  function BroadcastCount(acts: seq<HubAct>, roomId: nat): nat {
    if acts == [] then 0
    else (if acts[0].Broadcast? && acts[0].update.roomId == roomId then 1 else 0) + BroadcastCount(acts[1..], roomId)
  }

  lemma {:induction false} BroadcastsAdd(a: seq<HubAct>, b: seq<HubAct>, roomId: nat)
    ensures BroadcastCount(a + b, roomId) == BroadcastCount(a, roomId) + BroadcastCount(b, roomId)
  {
    if a == [] {
      assert a + b == b;
    } else {
      assert (a + b)[1..] == a[1..] + b;
      BroadcastsAdd(a[1..], b, roomId);
    }
  }

  ghost function AllRoomCalls(limits: Limits, s: Sys, ticks: seq<Tick>): seq<Call>
    decreases ticks
  {
    if ticks == [] then []
    else RoomCalls(limits, s, ticks[0]) + AllRoomCalls(limits, SysStep(s, ticks[0].act), ticks[1..])
  }

  /** The room-level limiter's half of a run. */
  ghost predicate RoomRunFits(limits: Limits, s: Sys, room: seq<Call>, clock: nat, ticks: seq<Tick>)
    decreases ticks
  {
    ticks != [] ==>
      && RoomDecides(limits, s, room, clock, ticks[0])
      && RoomRunFits(limits, SysStep(s, ticks[0].act), room + RoomCalls(limits, s, ticks[0]), ticks[0].end, ticks[1..])
  }

  function EndOf(clock: nat, ticks: seq<Tick>): nat
    decreases ticks
  {
    if ticks == [] then clock else EndOf(ticks[0].end, ticks[1..])
  }

  lemma {:induction false} RoomHalf(limits: Limits, w: World, ticks: seq<Tick>)
    requires TicksFit(limits, w, ticks)
    ensures RoomRunFits(limits, w.sys, w.room, w.clock, ticks)
    ensures EndOf(w.clock, ticks) == RunWorld(limits, w, ticks).clock
    decreases ticks
  {
    if ticks != [] {
      RoomHalf(limits, Next(limits, w, ticks[0]), ticks[1..]);
    }
  }

  lemma {:induction false} AllRoomCallsOrdered(limits: Limits, s: Sys, room: seq<Call>, clock: nat, ticks: seq<Tick>)
    requires RoomRunFits(limits, s, room, clock, ticks)
    ensures Ordered(clock, AllRoomCalls(limits, s, ticks), EndOf(clock, ticks), limits.room, limits.roomWindow)
    decreases ticks
  {
    if ticks != [] {
      var t, s1, calls := ticks[0], SysStep(s, ticks[0].act), RoomCalls(limits, s, ticks[0]);
      var later := AllRoomCalls(limits, s1, ticks[1..]);
      AllRoomCallsOrdered(limits, s1, room + calls, t.end, ticks[1..]);
      RoomCallsOrdered(limits, s, room, clock, t);
      OrderedConcat(clock, calls, t.end, later, EndOf(clock, ticks), limits.room, limits.roomWindow, calls + later);
    }
  }

  /** The readings at which updates of a room reached the hub: when the room-level limiter let them through. */
  ghost function HubTimes(s: Sys, ticks: seq<Tick>, roomId: nat): seq<nat>
    decreases ticks
  {
    if ticks == [] then [] else HubTime(s, ticks[0], roomId) + HubTimes(SysStep(s, ticks[0].act), ticks[1..], roomId)
  }

  ghost function HubTime(s: Sys, t: Tick, roomId: nat): seq<nat> {
    if BroadcastCount(HubActs(s.app, t.act), roomId) > 0 then [t.asked] else []
  }

  lemma OneBroadcast(s: Sys, act: SysAct, roomId: nat)
    ensures BroadcastCount(HubActs(s.app, act), roomId) <= 1
    ensures BroadcastCount(HubActs(s.app, act), roomId) == 1
       <==> act.Command? && !act.skipped && UpdateOf(s, act).Some? && UpdateOf(s, act).value.roomId == roomId
  {
    var acts := HubActs(s.app, act);
    if acts != [] {
      assert acts[1..] == [];
    }
  }

  /** What is counted is what reaches the hub. */
  lemma {:induction false} HubTimesAreBroadcasts(s: Sys, ticks: seq<Tick>, roomId: nat)
    ensures |HubTimes(s, ticks, roomId)| == BroadcastCount(AllHubActs(s, ActsOf(ticks)), roomId)
    decreases ticks
  {
    if ticks != [] {
      var s1 := SysStep(s, ticks[0].act);
      HubTimesAreBroadcasts(s1, ticks[1..], roomId);
      assert ActsOf(ticks)[1..] == ActsOf(ticks[1..]);
      OneBroadcast(s, ticks[0].act, roomId);
      BroadcastsAdd(HubActs(s.app, ticks[0].act), AllHubActs(s1, ActsOf(ticks[1..])), roomId);
    }
  }

  /** An update that is broadcast was granted by the room-level limiter. */
  lemma HubTimeIsGranted(limits: Limits, s: Sys, room: seq<Call>, clock: nat, t: Tick, roomId: nat, lo: nat, hi: int)
    requires RoomDecides(limits, s, room, clock, t)
    ensures CountIn(HubTime(s, t, roomId), lo, hi)
         <= GrantedIn(After(map[], room), RoomCalls(limits, s, t), RoomKey(roomId), lo, hi)
  {
    OneBroadcast(s, t.act, roomId);
    if HubTime(s, t, roomId) != [] {
      GrantedCounts(After(map[], room), RoomCalls(limits, s, t), 0, lo, hi);
    }
  }

  lemma {:induction false} HubTimesAreGranted(limits: Limits, s: Sys, room: seq<Call>, clock: nat, ticks: seq<Tick>,
                                              roomId: nat, lo: nat, hi: int)
    requires RoomRunFits(limits, s, room, clock, ticks)
    ensures CountIn(HubTimes(s, ticks, roomId), lo, hi)
         <= GrantedIn(After(map[], room), AllRoomCalls(limits, s, ticks), RoomKey(roomId), lo, hi)
    decreases ticks
  {
    if ticks != [] {
      var t, s1, calls := ticks[0], SysStep(s, ticks[0].act), RoomCalls(limits, s, ticks[0]);
      HubTimeIsGranted(limits, s, room, clock, t, roomId, lo, hi);
      HubTimesAreGranted(limits, s1, room + calls, t.end, ticks[1..], roomId, lo, hi);
      CountConcat(HubTime(s, t, roomId), HubTimes(s1, ticks[1..], roomId), lo, hi);
      RunsConcat(map[], room, calls);
      GrantedInConcat(After(map[], room), calls, AllRoomCalls(limits, s1, ticks[1..]), RoomKey(roomId), lo, hi);
    }
  }

  /** A run of the system from a world that is reached. */
  ghost predicate IsSystemRun(limits: Limits, w: World, ticks: seq<Tick>) {
    ValidWorld(limits, w) && TicksFit(limits, w, ticks)
  }

  /** How many updates of a room reach the hub during a run, at readings from `lo` to `hi`. */
  ghost function HubCount(w: World, ticks: seq<Tick>, roomId: nat, lo: nat, hi: int): nat {
    CountIn(HubTimes(w.sys, ticks, roomId), lo, hi)
  }

  ghost function RoomGrantCount(limits: Limits, w: World, ticks: seq<Tick>, roomId: nat, lo: nat, hi: int): nat {
    GrantedIn(After(map[], w.room), AllRoomCalls(limits, w.sys, ticks), RoomKey(roomId), lo, hi)
  }

  lemma RoomGrantsAreLimited(limits: Limits, w: World, ticks: seq<Tick>, roomId: nat, lo: nat, hi: int)
    requires IsSystemRun(limits, w, ticks) && hi <= lo + limits.roomWindow
    ensures RoomGrantCount(limits, w, ticks, roomId, lo, hi) <= limits.room
  {
    RoomHalf(limits, w, ticks);
    AllRoomCallsOrdered(limits, w.sys, w.room, w.clock, ticks);
    GrantRate(After(map[], w.room), w.room, w.clock, AllRoomCalls(limits, w.sys, ticks), EndOf(w.clock, ticks),
              limits.room, limits.roomWindow, RoomKey(roomId), lo, hi);
  }

  lemma HubCountIsGranted(limits: Limits, w: World, ticks: seq<Tick>, roomId: nat, lo: nat, hi: int)
    requires IsSystemRun(limits, w, ticks)
    ensures HubCount(w, ticks, roomId, lo, hi) <= RoomGrantCount(limits, w, ticks, roomId, lo, hi)
  {
    RoomHalf(limits, w, ticks);
    HubTimesAreGranted(limits, w.sys, w.room, w.clock, ticks, roomId, lo, hi);
  }

  /** In any window of any run, at most `limits.room` updates of one room reach the hub. */
  lemma RoomRate(limits: Limits, w: World, ticks: seq<Tick>, roomId: nat, lo: nat, hi: int)
    requires IsSystemRun(limits, w, ticks) && hi <= lo + limits.roomWindow
    ensures HubCount(w, ticks, roomId, lo, hi) <= limits.room
  {
    RoomGrantsAreLimited(limits, w, ticks, roomId, lo, hi);
    HubCountIsGranted(limits, w, ticks, roomId, lo, hi);
  }

  /** The updates of a room in a run all reach the hub at readings from `lo` to `hi`. */
  ghost predicate HubTimesWithin(w: World, ticks: seq<Tick>, roomId: nat, lo: nat, hi: int) {
    AllWithin(HubTimes(w.sys, ticks, roomId), lo, hi)
  }

  /** How many updates of a room are broadcast during a run. */
  ghost function Broadcasts(w: World, ticks: seq<Tick>, roomId: nat): nat {
    BroadcastCount(AllHubActs(w.sys, ActsOf(ticks)), roomId)
  }

  lemma HubCountIsBroadcasts(w: World, ticks: seq<Tick>, roomId: nat, lo: nat, hi: int)
    requires HubTimesWithin(w, ticks, roomId, lo, hi)
    ensures HubCount(w, ticks, roomId, lo, hi) == Broadcasts(w, ticks, roomId)
  {
    AllCounted(HubTimes(w.sys, ticks, roomId), lo, hi);
    HubTimesAreBroadcasts(w.sys, ticks, roomId);
  }

  /** So a stretch whose updates of a room all fall into one window broadcasts at most `limits.room` of them. */
  lemma RoomBurst(limits: Limits, w: World, ticks: seq<Tick>, roomId: nat, lo: nat, hi: int)
    requires IsSystemRun(limits, w, ticks) && hi <= lo + limits.roomWindow
    requires HubTimesWithin(w, ticks, roomId, lo, hi)
    ensures Broadcasts(w, ticks, roomId) <= limits.room
  {
    RoomRate(limits, w, ticks, roomId, lo, hi);
    HubCountIsBroadcasts(w, ticks, roomId, lo, hi);
  }

  // ---------------------------------------------------------------- whose updates count against a room

  lemma RoomKeyInjective(r: nat, r': nat)
    requires RoomKey(r) == RoomKey(r')
    ensures r == r'
  {
    assert RoomKey(r)[5..] == Decimal.Print(r) && RoomKey(r')[5..] == Decimal.Print(r');
    Decimal.DigitsOfPrint(r);
    Decimal.DigitsOfPrint(r');
  }

  ghost predicate IsUpdateOf(s: Sys, t: Tick, roomId: nat) {
    UpdateOf(s, t.act).Some? && UpdateOf(s, t.act).value.roomId == roomId
  }

  /** Which updates of a room were let through during a run, in order. */
  ghost function LetThrough(s: Sys, ticks: seq<Tick>, roomId: nat): seq<bool>
    decreases ticks
  {
    if ticks == [] then []
    else (if IsUpdateOf(s, ticks[0], roomId) then [!ticks[0].act.skipped] else [])
         + LetThrough(SysStep(s, ticks[0].act), ticks[1..], roomId)
  }

  /** The questions that the updates of one room put to the room-level limiter. */
  ghost function OwnRoomCalls(limits: Limits, s: Sys, ticks: seq<Tick>, roomId: nat): seq<Call>
    decreases ticks
  {
    if ticks == [] then []
    else (if IsUpdateOf(s, ticks[0], roomId) then
            [Call(RoomKey(roomId), limits.room, limits.roomWindow, ticks[0].asked)]
          else [])
         + OwnRoomCalls(limits, SysStep(s, ticks[0].act), ticks[1..], roomId)
  }

  lemma {:induction false} OwnRoomCallsAreOwn(limits: Limits, s: Sys, ticks: seq<Tick>, roomId: nat)
    ensures Only(AllRoomCalls(limits, s, ticks), RoomKey(roomId)) == OwnRoomCalls(limits, s, ticks, roomId)
    decreases ticks
  {
    if ticks != [] {
      var s1, calls := SysStep(s, ticks[0].act), RoomCalls(limits, s, ticks[0]);
      OwnRoomCallsAreOwn(limits, s1, ticks[1..], roomId);
      OnlyConcat(calls, AllRoomCalls(limits, s1, ticks[1..]), RoomKey(roomId));
      OnlyOne(limits, s, ticks[0], roomId);
    }
  }

  lemma OnlyOne(limits: Limits, s: Sys, t: Tick, roomId: nat)
    ensures Only(RoomCalls(limits, s, t), RoomKey(roomId))
         == if IsUpdateOf(s, t, roomId) then RoomCalls(limits, s, t) else []
  {
    var calls := RoomCalls(limits, s, t);
    if calls != [] {
      assert calls[1..] == [] && calls == [calls[0]];
      if calls[0].key == RoomKey(roomId) {
        RoomKeyInjective(UpdateOf(s, t.act).value.roomId, roomId);
      }
    }
  }

  lemma {:induction false} LetThroughAreAnswers(limits: Limits, s: Sys, room: seq<Call>, buckets: Buckets, clock: nat,
                                                ticks: seq<Tick>, roomId: nat)
    requires RoomRunFits(limits, s, room, clock, ticks) && buckets == After(map[], room)
    ensures var calls := AllRoomCalls(limits, s, ticks);
      && |RateLimiter.Answers(buckets, calls)| == |calls|
      && AnswersTo(RoomKey(roomId), calls, RateLimiter.Answers(buckets, calls)) == LetThrough(s, ticks, roomId)
    decreases ticks
  {
    if ticks != [] {
      var s1, calls := SysStep(s, ticks[0].act), RoomCalls(limits, s, ticks[0]);
      var later := AllRoomCalls(limits, s1, ticks[1..]);
      RunsConcat(map[], room, calls);
      LetThroughAreAnswers(limits, s1, room + calls, After(buckets, calls), ticks[0].end, ticks[1..], roomId);
      RunsConcat(buckets, calls, later);
      FirstLetThrough(limits, s, ticks[0], buckets, later, roomId);
    }
  }

  lemma FirstLetThrough(limits: Limits, s: Sys, t: Tick, buckets: Buckets, later: seq<Call>, roomId: nat)
    requires UpdateOf(s, t.act).Some? ==>
      RateLimiter.Answers(buckets, RoomCalls(limits, s, t)) == [!t.act.skipped]
    requires var rest := RateLimiter.Answers(After(buckets, RoomCalls(limits, s, t)), later); |rest| == |later|
    ensures var first, rest := RoomCalls(limits, s, t),
                RateLimiter.Answers(After(buckets, RoomCalls(limits, s, t)), later);
      && |RateLimiter.Answers(buckets, first) + rest| == |first + later|
      && AnswersTo(RoomKey(roomId), first + later, RateLimiter.Answers(buckets, first) + rest)
         == (if IsUpdateOf(s, t, roomId) then [!t.act.skipped] else []) + AnswersTo(RoomKey(roomId), later, rest)
  {
    var first, rest := RoomCalls(limits, s, t), RateLimiter.Answers(After(buckets, RoomCalls(limits, s, t)), later);
    if first == [] {
      assert first + later == later && RateLimiter.Answers(buckets, first) + rest == rest;
    } else {
      assert (first + later)[1..] == later && ([!t.act.skipped] + rest)[1..] == rest;
      if first[0].key == RoomKey(roomId) {
        RoomKeyInjective(UpdateOf(s, t.act).value.roomId, roomId);
      }
    }
  }

  /**
    Which updates of a room are withheld depends on that room's updates only: they are let through
    as by a limiter that saw nothing else and keeps all grants.
   */
  lemma RoomTrafficOnly(limits: Limits, w: World, ticks: seq<Tick>, roomId: nat)
    requires Unasked(w) && TicksFit(limits, w, ticks)
    ensures LetThrough(w.sys, ticks, roomId) == SimpleAnswers([], OwnRoomCalls(limits, w.sys, ticks, roomId))
  {
    var calls, key := AllRoomCalls(limits, w.sys, ticks), RoomKey(roomId);
    RoomHalf(limits, w, ticks);
    LetThroughAreAnswers(limits, w.sys, w.room, map[], w.clock, ticks, roomId);
    AllRoomCallsOrdered(limits, w.sys, w.room, w.clock, ticks);
    OrderedCalls(w.clock, calls, EndOf(w.clock, ticks), limits.room, limits.roomWindow, key);
    OwnRoomCallsAreOwn(limits, w.sys, ticks, roomId);
    KeysAreIndependent(w.clock, limits.roomWindow, calls, key);
    OnlyMonotone(w.clock, limits.roomWindow, calls, key);
    RefinesSimple(w.clock, limits.roomWindow, Only(calls, key));
  }

  // ---------------------------------------------------------------- one client

  ghost function AllHubTicks(s: Sys, ticks: seq<Tick>): seq<Timed>
    decreases ticks
  {
    if ticks == [] then [] else HubTicks(s, ticks[0]) + AllHubTicks(SysStep(s, ticks[0].act), ticks[1..])
  }

  lemma {:induction false} HubTicksAreActs(s: Sys, ticks: seq<Tick>)
    ensures Acts(AllHubTicks(s, ticks)) == AllHubActs(s, ActsOf(ticks))
    decreases ticks
  {
    if ticks != [] {
      var t, later := ticks[0], AllHubTicks(SysStep(s, ticks[0].act), ticks[1..]);
      HubTicksAreActs(SysStep(s, t.act), ticks[1..]);
      assert ActsOf(ticks)[1..] == ActsOf(ticks[1..]);
      var acts := HubActs(s.app, t.act);
      if acts == [] {
        assert AllHubTicks(s, ticks) == later;
      } else {
        assert acts == [acts[0]];
        assert AllHubTicks(s, ticks)[1..] == later;
      }
    }
  }

  lemma HubTakesTick(s: Sys, t: Tick)
    ensures SysStep(s, t.act).hub == if HubTicks(s, t) == [] then s.hub else Step(s.hub, HubTicks(s, t)[0].act)
  {
    var acts := HubActs(s.app, t.act);
    if acts != [] {
      assert acts[1..] == [] && RunHub(s.hub, acts) == RunHub(Step(s.hub, acts[0]), []);
    }
  }

  /** The run of the system is, for the hub and the per-client limiter, a timed run. */
  lemma {:induction false} HubRunFits(limits: Limits, w: World, ticks: seq<Tick>)
    requires TicksFit(limits, w, ticks)
    ensures RunFits(w.sys.hub, After(map[], w.clients), w.clock, AllHubTicks(w.sys, ticks), limits.update,
                    limits.updateWindow)
    decreases ticks
  {
    if ticks != [] {
      var t, w1 := ticks[0], Next(limits, w, ticks[0]);
      HubRunFits(limits, w1, ticks[1..]);
      HubTakesTick(w.sys, t);
      FirstTickFits(limits, w, t, AllHubTicks(w1.sys, ticks[1..]));
    }
  }

  lemma FirstTickFits(limits: Limits, w: World, t: Tick, later: seq<Timed>)
    requires TickFits(limits, w, t)
    requires var w1 := Next(limits, w, t);
      RunFits(w1.sys.hub, After(map[], w1.clients), w1.clock, later, limits.update, limits.updateWindow)
    ensures RunFits(w.sys.hub, After(map[], w.clients), w.clock, HubTicks(w.sys, t) + later, limits.update,
                    limits.updateWindow)
  {
    var first := HubTicks(w.sys, t);
    HubTakesTick(w.sys, t);
    if first == [] {
      assert w.clients + [] == w.clients && [] + later == later;
    } else {
      assert first[1..] == [] && (first + later)[1..] == later;
      var calls := CallsIn(first[0], limits.update, limits.updateWindow);
      assert AllCalls(first, limits.update, limits.updateWindow) == calls + [] == calls;
      RunsConcat(map[], w.clients, calls);
    }
  }

  lemma ClientsHalf(limits: Limits, w: World, ticks: seq<Tick>)
    requires IsSystemRun(limits, w, ticks)
    ensures IsRun(w.sys.hub, After(map[], w.clients), w.clients, w.clock, AllHubTicks(w.sys, ticks), limits.update,
                  limits.updateWindow)
  {
    HubRunFits(limits, w, ticks);
  }

  /** How many events of a room a client is sent during a run, at readings from `lo` to `hi`. */
  ghost function ClientCount(limits: Limits, w: World, ticks: seq<Tick>, roomId: nat, id: ClientId,
                             lo: nat, hi: int): nat
    requires IsSystemRun(limits, w, ticks)
  {
    ClientsHalf(limits, w, ticks);
    SendCount(w.sys.hub, After(map[], w.clients), w.clients, w.clock, AllHubTicks(w.sys, ticks), limits.update,
              limits.updateWindow, roomId, id, lo, hi)
  }

  /** All that a client is sent during a run, it is sent at readings from `lo` to `hi`. */
  ghost predicate ClientSendsWithin(limits: Limits, w: World, ticks: seq<Tick>, roomId: nat, id: ClientId,
                                    lo: nat, hi: int)
    requires IsSystemRun(limits, w, ticks)
  {
    ClientsHalf(limits, w, ticks);
    SendsWithin(w.sys.hub, After(map[], w.clients), w.clients, w.clock, AllHubTicks(w.sys, ticks), limits.update,
                limits.updateWindow, roomId, id, lo, hi)
  }

  /** In any window of any run, one client of a room is sent at most `limits.update` events. */
  lemma ClientRate(limits: Limits, w: World, ticks: seq<Tick>, roomId: nat, id: ClientId, lo: nat, hi: int)
    requires IsSystemRun(limits, w, ticks) && hi <= lo + limits.updateWindow
    ensures ClientCount(limits, w, ticks, roomId, id, lo, hi) <= limits.update
  {
    ClientsHalf(limits, w, ticks);
    SendRate(w.sys.hub, After(map[], w.clients), w.clients, w.clock, AllHubTicks(w.sys, ticks), limits.update,
             limits.updateWindow, roomId, id, lo, hi);
  }

  /** Client ids are fresh during the run, and this client is in this room only, if at all. */
  ghost predicate Settled(w: World, ticks: seq<Tick>, roomId: nat, id: ClientId) {
    && FreshJoins(w.sys, ActsOf(ticks)) && AtHome(w.sys.hub, roomId, id)
    && JoinsOnly(AllHubActs(w.sys, ActsOf(ticks)), roomId, id)
  }

  /** The hub after a run. */
  ghost function HubOf(limits: Limits, w: World, ticks: seq<Tick>): Hub {
    RunWorld(limits, w, ticks).sys.hub
  }

  lemma HubFollowsTicks(limits: Limits, w: World, ticks: seq<Tick>, roomId: nat, id: ClientId)
    requires Settled(w, ticks, roomId, id)
    ensures OneHome(w.sys.hub, AllHubTicks(w.sys, ticks), roomId, id)
    ensures HubOf(limits, w, ticks) == HubAfter(w.sys.hub, AllHubTicks(w.sys, ticks))
  {
    HubTicksAreActs(w.sys, ticks);
    WorldIsSystem(limits, w, ticks);
    HubHalf(w.sys, ActsOf(ticks));
  }

  /** What is counted is what is sent: it is what the client's channel grows by, while its receiver lives. */
  lemma ClientCountIsSent(limits: Limits, w: World, ticks: seq<Tick>, roomId: nat, id: ClientId, lo: nat, hi: int)
    requires IsSystemRun(limits, w, ticks) && Settled(w, ticks, roomId, id)
    requires ClientSendsWithin(limits, w, ticks, roomId, id, lo, hi)
    ensures var before, after := w.sys.hub, HubOf(limits, w, ticks);
      var sends := ClientCount(limits, w, ticks, roomId, id, lo, hi);
      && SentTo(after, id) <= SentTo(before, id) + sends
      && (Living(after, id) ==> SentTo(after, id) == SentTo(before, id) + sends)
  {
    ClientsHalf(limits, w, ticks);
    HubFollowsTicks(limits, w, ticks, roomId, id);
    ChannelGrowth(w.sys.hub, After(map[], w.clients), w.clients, w.clock, AllHubTicks(w.sys, ticks), limits.update,
                  limits.updateWindow, roomId, id, lo, hi);
  }

  /** So a stretch that sends to a client within one window only sends it at most `limits.update` events. */
  lemma ClientBurst(limits: Limits, w: World, ticks: seq<Tick>, roomId: nat, id: ClientId, lo: nat, hi: int)
    requires IsSystemRun(limits, w, ticks) && Settled(w, ticks, roomId, id) && hi <= lo + limits.updateWindow
    requires ClientSendsWithin(limits, w, ticks, roomId, id, lo, hi)
    ensures SentTo(HubOf(limits, w, ticks), id) <= SentTo(w.sys.hub, id) + limits.update
  {
    ClientRate(limits, w, ticks, roomId, id, lo, hi);
    ClientCountIsSent(limits, w, ticks, roomId, id, lo, hi);
  }

  // ---------------------------------------------------------------- one line of the command loop

  /** What broadcasting works on: the hub, the calls of both limiters, and the clock. */
  datatype Side = Side(hub: Hub, room: seq<Call>, clients: seq<Call>, clock: nat)

  function Whole(app: App, side: Side): World {
    World(Sys(app, side.hub), side.room, side.clients, side.clock)
  }

  /** How one update fared. */
  datatype Publication = Publication(asked: nat, skipped: bool, turns: Visits, refused: set<ClientId>)

  const NOTHING_PUBLISHED := Publication(0, false, NO_VISITS, {})

  function TurnsAs(u: RoomUpdate, p: Publication, end: nat): Timed {
    Timed(Broadcast(u, p.refused), p.turns, end)
  }

  /** The room-level limiter is asked once; unless it refuses, the update is broadcast. */
  ghost predicate PublishedAs(limits: Limits, u: RoomUpdate, before: Side, after: Side, p: Publication) {
    var call := Call(RoomKey(u.roomId), limits.room, limits.roomWindow, p.asked);
    && before.clock <= p.asked <= after.clock
    && after.room == before.room + [call]
    && RateLimiter.Answers(After(map[], before.room), [call]) == [!p.skipped]
    && (if p.skipped then after.hub == before.hub && after.clients == before.clients
        else
          && Fits(before.hub, After(map[], before.clients), p.asked, TurnsAs(u, p, after.clock), limits.update,
                  limits.updateWindow)
          && after.hub == Step(before.hub, Broadcast(u, p.refused))
          && after.clients
             == before.clients + CallsIn(TurnsAs(u, p, after.clock), limits.update, limits.updateWindow))
  }

  /** A command that emits an update is one tick, with the readings of its publication. */
  lemma PublishedTick(limits: Limits, app: App, op: AppOp, cleaned: bool, u: RoomUpdate, before: Side, after: Side,
                      p: Publication)
    requires UpdatesFor(app, op) == [u] && PublishedAs(limits, u, before, after, p)
    ensures var t := Tick(SysAct.Command(op, p.skipped, cleaned, p.refused), p.asked, p.turns, after.clock);
      && TickFits(limits, Whole(app, before), t)
      && Next(limits, Whole(app, before), t) == Whole(Perform(app, op).0, after)
  {
    var t := Tick(SysAct.Command(op, p.skipped, cleaned, p.refused), p.asked, p.turns, after.clock);
    var w, timed := Whole(app, before), TurnsAs(u, p, after.clock);
    HubTakesTick(w.sys, t);
    OneOp(app, op);
    if p.skipped {
      assert HubTicks(w.sys, t) == [] && before.clients + [] == before.clients;
    } else {
      assert HubTicks(w.sys, t) == [timed] && [timed][1..] == [];
      OneTimed(before.hub, After(map[], before.clients), p.asked, timed, limits.update, limits.updateWindow);
    }
  }

  lemma OneOp(app: App, op: AppOp)
    ensures RunApp(app, [op]) == Perform(app, op).0
  {
    assert [op][1..] == [] && RunApp(app, [op]) == RunApp(Perform(app, op).0, []);
  }

  lemma OneTimed(h: Hub, buckets: Buckets, from: nat, t: Timed, limit: nat, window: nat)
    requires Fits(h, buckets, from, t, limit, window)
    ensures RunFits(h, buckets, from, [t], limit, window)
    ensures AllCalls([t], limit, window) == CallsIn(t, limit, window)
  {
    assert [t][1..] == [] && CallsIn(t, limit, window) + [] == CallsIn(t, limit, window);
    assert AllCalls([], limit, window) == [];
  }

  /** A step without an update asks no limiter. */
  lemma SilentTick(limits: Limits, w: World, act: SysAct)
    requires UpdateOf(w.sys, act).None?
    ensures var t := Tick(act, 0, NO_VISITS, w.clock);
      && TickFits(limits, w, t)
      && Next(limits, w, t) == w.(sys := SysStep(w.sys, act))
  {
    var t := Tick(act, 0, NO_VISITS, w.clock);
    assert w.room + [] == w.room && w.clients + [] == w.clients;
    var ticks := HubTicks(w.sys, t);
    if ticks != [] {
      assert !ticks[0].act.Broadcast? && ticks == [ticks[0]];
      OneTimed(w.sys.hub, After(map[], w.clients), w.clock, ticks[0], limits.update, limits.updateWindow);
    }
  }

  lemma OneTick(limits: Limits, w: World, t: Tick)
    requires TickFits(limits, w, t)
    ensures TicksFit(limits, w, [t]) && RunWorld(limits, w, [t]) == Next(limits, w, t)
    ensures ActsOf([t]) == [t.act]
  {
    assert [t][1..] == [] && ActsOf([]) == [] && [t.act] + [] == [t.act];
    assert RunWorld(limits, Next(limits, w, t), []) == Next(limits, w, t);
  }
}
