/** How often one client can be sent an event, and whose traffic counts against it. */
module DeliveryRate {
  import opened HubModel
  import opened RateLimiter
  import opened Fanout

  type Visits = turns: Turns | turns.Wf() witness Turns([], [], [])

  const NO_VISITS: Visits := Turns([], [], [])

  /** A hub step, the turns that its clients had if it is a broadcast, and the clock after it. */
  datatype Timed = Timed(act: HubAct, turns: Visits, end: nat)

  function CallsIn(t: Timed, limit: nat, window: nat): seq<Call> {
    if t.act.Broadcast? then CallsOf(t.act.update.roomId, t.turns.order, t.turns.times, limit, window) else []
  }

  function AllCalls(ts: seq<Timed>, limit: nat, window: nat): seq<Call> {
    if ts == [] then [] else CallsIn(ts[0], limit, window) + AllCalls(ts[1..], limit, window)
  }

  function Acts(ts: seq<Timed>): seq<HubAct> {
    if ts == [] then [] else [ts[0].act] + Acts(ts[1..])
  }

  function ClockAfter(from: nat, ts: seq<Timed>): nat
    decreases ts
  {
    if ts == [] then from else ClockAfter(ts[0].end, ts[1..])
  }

  /**
    A broadcast gives each client it is meant for exactly one turn, at readings that never go
    back, and refuses those that the limiter refuses.
   */
  ghost predicate Fits(h: Hub, buckets: Buckets, from: nat, t: Timed, limit: nat, window: nat) {
    && from <= t.end
    && (t.act.Broadcast? ==>
          && IsOrderOf(t.turns.order, Targets(h, t.act.update))
          && TimesWithin(t.turns.times, from, t.end)
          && t.turns.verdicts == Answers(buckets, CallsIn(t, limit, window))
          && t.act.refused == RefusedOf(t.turns.order, t.turns.verdicts))
  }

  ghost predicate RunFits(h: Hub, buckets: Buckets, from: nat, ts: seq<Timed>, limit: nat, window: nat)
    decreases ts
  {
    ts != [] ==>
      && Fits(h, buckets, from, ts[0], limit, window)
      && RunFits(Step(h, ts[0].act), After(buckets, CallsIn(ts[0], limit, window)), ts[0].end, ts[1..], limit, window)
  }

  // ---------------------------------------------------------------- what is counted

  /** The readings at which a client is sent an event of a room. */
  ghost function SendTimes(h: Hub, buckets: Buckets, from: nat, ts: seq<Timed>, limit: nat, window: nat,
                           roomId: nat, id: ClientId): seq<nat>
    requires RunFits(h, buckets, from, ts, limit, window)
    decreases ts
  {
    if ts == [] then []
    else
      SendTime(h, ts[0], roomId, id)
      + SendTimes(Step(h, ts[0].act), After(buckets, CallsIn(ts[0], limit, window)), ts[0].end, ts[1..], limit, window,
                  roomId, id)
  }

  ghost function SendTime(h: Hub, t: Timed, roomId: nat, id: ClientId): seq<nat>
    requires t.act.Broadcast? ==> IsOrderOf(t.turns.order, Targets(h, t.act.update))
  {
    if t.act.Broadcast? && t.act.update.roomId == roomId && Delivers(h, t.act.update, t.act.refused, id) then
      [t.turns.times[TurnOf(t.turns.order, id)]]
    else []
  }

  ghost function TurnOf(order: seq<ClientId>, id: ClientId): (i: nat)
    requires id in order
    ensures i < |order| && order[i] == id
  {
    var i :| 0 <= i < |order| && order[i] == id;
    i
  }

  /** How many events were ever put into a client's channel. */
  function SentTo(h: Hub, id: ClientId): nat {
    if id in h.channels then |h.channels[id].Sent()| else 0
  }

  /** The client is, at most, in this room. */
  ghost predicate AtHome(h: Hub, roomId: nat, id: ClientId) {
    forall r | InRoom(h, r, id) :: r == roomId && id in h.channels
  }

  /** The client joins this room only. */
  ghost predicate JoinsOnly(acts: seq<HubAct>, roomId: nat, id: ClientId) {
    forall i | 0 <= i < |acts| && acts[i].Add? && acts[i].id == id :: acts[i].roomId == roomId
  }

  /** The channel is not dead: if the client is there, its receiver lives. */
  ghost predicate Living(h: Hub, id: ClientId) {
    id in h.channels ==> h.channels[id].open
  }

  lemma StaysHome(h: Hub, act: HubAct, roomId: nat, id: ClientId)
    requires AtHome(h, roomId, id)
    requires act.Add? ==> act.id !in h.channels && (act.id == id ==> act.roomId == roomId)
    ensures AtHome(Step(h, act), roomId, id)
  {
    var h' := Step(h, act);
    forall r | InRoom(h', r, id)
      ensures r == roomId && id in h'.channels
    {
      assert InRoom(h, r, id) || (act.Add? && act.id == id && r == act.roomId);
    }
  }

  lemma StepSends(h: Hub, t: Timed, roomId: nat, id: ClientId)
    requires AtHome(h, roomId, id) && (t.act.Add? ==> t.act.id !in h.channels)
    requires t.act.Broadcast? ==> IsOrderOf(t.turns.order, Targets(h, t.act.update))
    ensures var h', sends := Step(h, t.act), |SendTime(h, t, roomId, id)|;
      && (id in h.channels ==> id in h'.channels)
      && SentTo(h', id) <= SentTo(h, id) + sends
      && (Living(h', id) ==> Living(h, id) && SentTo(h', id) == SentTo(h, id) + sends)
  {
    match t.act {
      case Broadcast(u, refused) =>
        if id in h.channels {
          BroadcastChannel(h, u, refused, id);
          if Delivers(h, u, refused, id) {
            assert InRoom(h, u.roomId, id);
          }
        }
      case Receive(x) => if x in h.channels { SentStays(h.channels[x]); }
      case Hangup(x) => if x in h.channels { SentStays(h.channels[x]); }
      case _ =>
    }
  }

  /**
    What is counted is what is sent: over every run a client's channel is given exactly as many
    events as there are send times, and at most as many are left of them once its receiver is gone.
   */
  lemma {:induction false} SendsAreCounted(h: Hub, buckets: Buckets, from: nat, ts: seq<Timed>, limit: nat, window: nat,
                                           roomId: nat, id: ClientId)
    requires RunFits(h, buckets, from, ts, limit, window)
    requires FreshIds(h, Acts(ts)) && AtHome(h, roomId, id) && JoinsOnly(Acts(ts), roomId, id)
    ensures var h', sends := RunHub(h, Acts(ts)), |SendTimes(h, buckets, from, ts, limit, window, roomId, id)|;
      && SentTo(h', id) <= SentTo(h, id) + sends
      && (Living(h', id) ==> Living(h, id) && SentTo(h', id) == SentTo(h, id) + sends)
    decreases ts
  {
    if ts != [] {
      var h1, b1, rest := Step(h, ts[0].act), After(buckets, CallsIn(ts[0], limit, window)), Acts(ts[1..]);
      assert Acts(ts)[0] == ts[0].act && Acts(ts)[1..] == rest;
      assert forall i | 0 <= i < |rest| :: rest[i] == Acts(ts)[i + 1];
      StepSends(h, ts[0], roomId, id);
      StaysHome(h, ts[0].act, roomId, id);
      SendsAreCounted(h1, b1, ts[0].end, ts[1..], limit, window, roomId, id);
    }
  }

  // ---------------------------------------------------------------- runs of calls

  /** A granted call counts among its key's grants. */
  lemma {:induction false} GrantedCounts(buckets: Buckets, calls: seq<Call>, i: nat, lo: nat, hi: int)
    requires i < |calls| && |Answers(buckets, calls)| == |calls| && Answers(buckets, calls)[i]
    ensures CountIn([calls[i].now], lo, hi)
         <= CountIn(Times(RateLimiter.Grants(buckets, calls), calls[i].key), lo, hi)
    decreases calls
  {
    var (next, granted) := Allow(buckets, calls[0]);
    var rest, key := RateLimiter.Grants(next, calls[1..]), calls[i].key;
    ConsCounts(calls[0], rest, key, lo, hi);
    if i > 0 {
      AnswersLength(next, calls[1..]);
      assert calls[1..][i - 1] == calls[i] && Answers(next, calls[1..])[i - 1];
      GrantedCounts(next, calls[1..], i - 1, lo, hi);
    }
  }

  lemma ConsCounts(call: Call, rest: seq<Call>, key: string, lo: nat, hi: int)
    ensures CountIn(Times([call] + rest, key), lo, hi)
         == (if call.key == key then CountIn([call.now], lo, hi) else 0) + CountIn(Times(rest, key), lo, hi)
  {
    TimesConcat([call], rest, key);
    TimesOfOne(call, key);
    CountConcat(Times([call], key), Times(rest, key), lo, hi);
  }

  lemma {:induction false} TurnsAreOrdered(roomId: nat, order: seq<ClientId>, times: seq<nat>, from: nat, to: nat,
                                          limit: nat, window: nat)
    requires |order| == |times| && TimesWithin(times, from, to) && from <= to
    ensures Ordered(from, CallsOf(roomId, order, times, limit, window), to, limit, window)
    decreases order
  {
    if order != [] {
      var calls := CallsOf(roomId, order, times, limit, window);
      assert calls[1..] == CallsOf(roomId, order[1..], times[1..], limit, window);
      TurnsAreOrdered(roomId, order[1..], times[1..], times[0], to, limit, window);
    }
  }

  lemma {:induction false} RunIsOrdered(h: Hub, buckets: Buckets, from: nat, ts: seq<Timed>, limit: nat, window: nat)
    requires RunFits(h, buckets, from, ts, limit, window)
    ensures Ordered(from, AllCalls(ts, limit, window), ClockAfter(from, ts), limit, window)
    decreases ts
  {
    if ts != [] {
      var t, calls, later := ts[0], CallsIn(ts[0], limit, window), AllCalls(ts[1..], limit, window);
      RunIsOrdered(Step(h, t.act), After(buckets, calls), t.end, ts[1..], limit, window);
      StepIsOrdered(h, buckets, from, t, limit, window);
      OrderedConcat(from, calls, t.end, later, ClockAfter(from, ts), limit, window, calls + later);
    }
  }

  lemma StepIsOrdered(h: Hub, buckets: Buckets, from: nat, t: Timed, limit: nat, window: nat)
    requires Fits(h, buckets, from, t, limit, window)
    ensures Ordered(from, CallsIn(t, limit, window), t.end, limit, window)
  {
    if t.act.Broadcast? {
      TurnsAreOrdered(t.act.update.roomId, t.turns.order, t.turns.times, from, t.end, limit, window);
    }
  }

  // ---------------------------------------------------------------- the rate

  lemma SendIsGranted(h: Hub, buckets: Buckets, from: nat, t: Timed, limit: nat, window: nat, roomId: nat, id: ClientId,
                      lo: nat, hi: int)
    requires Fits(h, buckets, from, t, limit, window)
    ensures CountIn(SendTime(h, t, roomId, id), lo, hi)
         <= GrantedIn(buckets, CallsIn(t, limit, window), ClientKey(roomId, id), lo, hi)
  {
    if SendTime(h, t, roomId, id) != [] {
      var calls, i := CallsIn(t, limit, window), TurnOf(t.turns.order, id);
      assert calls[i] == Call(ClientKey(roomId, id), limit, window, t.turns.times[i]);
      assert Answers(buckets, calls)[i];
      GrantedCounts(buckets, calls, i, lo, hi);
    }
  }

  lemma {:induction false} SendsAreGranted(h: Hub, buckets: Buckets, from: nat, ts: seq<Timed>, limit: nat, window: nat,
                                           roomId: nat, id: ClientId, lo: nat, hi: int)
    requires RunFits(h, buckets, from, ts, limit, window)
    ensures CountIn(SendTimes(h, buckets, from, ts, limit, window, roomId, id), lo, hi)
         <= GrantedIn(buckets, AllCalls(ts, limit, window), ClientKey(roomId, id), lo, hi)
    decreases ts
  {
    if ts != [] {
      var t, key, calls, later := ts[0], ClientKey(roomId, id), CallsIn(ts[0], limit, window),
          AllCalls(ts[1..], limit, window);
      var h1, b1 := Step(h, t.act), After(buckets, calls);
      SendIsGranted(h, buckets, from, t, limit, window, roomId, id, lo, hi);
      SendsAreGranted(h1, b1, t.end, ts[1..], limit, window, roomId, id, lo, hi);
      CountConcat(SendTime(h, t, roomId, id), SendTimes(h1, b1, t.end, ts[1..], limit, window, roomId, id), lo, hi);
      GrantedInConcat(buckets, calls, later, key, lo, hi);
    }
  }

  /** A timed run after any earlier calls: the limiter's buckets are what those calls left. */
  ghost predicate IsRun(h: Hub, buckets: Buckets, calls: seq<Call>, clock: nat, ts: seq<Timed>, limit: nat,
                        window: nat)
  {
    GoodHistory(buckets, calls, limit, window, clock) && RunFits(h, buckets, clock, ts, limit, window)
  }

  /** How many events of a room a client is sent during a run, at readings from `lo` to `hi`. */
  ghost function SendCount(h: Hub, buckets: Buckets, calls: seq<Call>, clock: nat, ts: seq<Timed>, limit: nat,
                           window: nat, roomId: nat, id: ClientId, lo: nat, hi: int): nat
    requires IsRun(h, buckets, calls, clock, ts, limit, window)
  {
    CountIn(SendTimes(h, buckets, clock, ts, limit, window, roomId, id), lo, hi)
  }

  ghost function GrantCount(buckets: Buckets, ts: seq<Timed>, limit: nat, window: nat, key: string,
                            lo: nat, hi: int): nat
  {
    GrantedIn(buckets, AllCalls(ts, limit, window), key, lo, hi)
  }

  lemma GrantsAreLimited(h: Hub, buckets: Buckets, calls: seq<Call>, clock: nat, ts: seq<Timed>, limit: nat,
                         window: nat, key: string, lo: nat, hi: int)
    requires IsRun(h, buckets, calls, clock, ts, limit, window) && hi <= lo + window
    ensures GrantCount(buckets, ts, limit, window, key, lo, hi) <= limit
  {
    RunIsOrdered(h, buckets, clock, ts, limit, window);
    GrantRate(buckets, calls, clock, AllCalls(ts, limit, window), ClockAfter(clock, ts), limit, window, key, lo, hi);
  }

  lemma SendsAreGrants(h: Hub, buckets: Buckets, calls: seq<Call>, clock: nat, ts: seq<Timed>, limit: nat, window: nat,
                       roomId: nat, id: ClientId, lo: nat, hi: int)
    requires IsRun(h, buckets, calls, clock, ts, limit, window)
    ensures SendCount(h, buckets, calls, clock, ts, limit, window, roomId, id, lo, hi)
         <= GrantCount(buckets, ts, limit, window, ClientKey(roomId, id), lo, hi)
  {
    SendsAreGranted(h, buckets, clock, ts, limit, window, roomId, id, lo, hi);
  }

  /** Whatever happened before: in any window of a run, one client is sent at most `limit` events. */
  lemma SendRate(h: Hub, buckets: Buckets, calls: seq<Call>, clock: nat, ts: seq<Timed>, limit: nat, window: nat,
                 roomId: nat, id: ClientId, lo: nat, hi: int)
    requires IsRun(h, buckets, calls, clock, ts, limit, window) && hi <= lo + window
    ensures SendCount(h, buckets, calls, clock, ts, limit, window, roomId, id, lo, hi) <= limit
  {
    GrantsAreLimited(h, buckets, calls, clock, ts, limit, window, ClientKey(roomId, id), lo, hi);
    SendsAreGrants(h, buckets, calls, clock, ts, limit, window, roomId, id, lo, hi);
  }

  ghost predicate AllWithin(times: seq<nat>, lo: nat, hi: int) {
    forall i | 0 <= i < |times| :: lo <= times[i] <= hi
  }

  lemma {:induction false} AllCounted(times: seq<nat>, lo: nat, hi: int)
    requires AllWithin(times, lo, hi)
    ensures CountIn(times, lo, hi) == |times|
  {
    if times != [] {
      AllCounted(times[..|times| - 1], lo, hi);
    }
  }

  /** Client ids are fresh, and this client is in this room only, if at all. */
  ghost predicate OneHome(h: Hub, ts: seq<Timed>, roomId: nat, id: ClientId) {
    FreshIds(h, Acts(ts)) && AtHome(h, roomId, id) && JoinsOnly(Acts(ts), roomId, id)
  }

  /** All that a client is sent during a run, it is sent at readings from `lo` to `hi`. */
  ghost predicate SendsWithin(h: Hub, buckets: Buckets, calls: seq<Call>, clock: nat, ts: seq<Timed>, limit: nat,
                              window: nat, roomId: nat, id: ClientId, lo: nat, hi: int)
    requires IsRun(h, buckets, calls, clock, ts, limit, window)
  {
    AllWithin(SendTimes(h, buckets, clock, ts, limit, window, roomId, id), lo, hi)
  }

  function HubAfter(h: Hub, ts: seq<Timed>): Hub {
    RunHub(h, Acts(ts))
  }

  lemma ChannelGrowth(h: Hub, buckets: Buckets, calls: seq<Call>, clock: nat, ts: seq<Timed>, limit: nat, window: nat,
                      roomId: nat, id: ClientId, lo: nat, hi: int)
    requires IsRun(h, buckets, calls, clock, ts, limit, window) && OneHome(h, ts, roomId, id)
    requires SendsWithin(h, buckets, calls, clock, ts, limit, window, roomId, id, lo, hi)
    ensures var sends := SendCount(h, buckets, calls, clock, ts, limit, window, roomId, id, lo, hi);
      && SentTo(HubAfter(h, ts), id) <= SentTo(h, id) + sends
      && (Living(HubAfter(h, ts), id) ==> SentTo(HubAfter(h, ts), id) == SentTo(h, id) + sends)
  {
    AllCounted(SendTimes(h, buckets, clock, ts, limit, window, roomId, id), lo, hi);
    SendsAreCounted(h, buckets, clock, ts, limit, window, roomId, id);
  }

  /** Whatever happened before: a run that sends to a client within one window only adds at most `limit` events. */
  lemma ChannelRate(h: Hub, buckets: Buckets, calls: seq<Call>, clock: nat, ts: seq<Timed>, limit: nat, window: nat,
                    roomId: nat, id: ClientId, lo: nat, hi: int)
    requires IsRun(h, buckets, calls, clock, ts, limit, window) && OneHome(h, ts, roomId, id) && hi <= lo + window
    requires SendsWithin(h, buckets, calls, clock, ts, limit, window, roomId, id, lo, hi)
    ensures SentTo(HubAfter(h, ts), id) <= SentTo(h, id) + limit
  {
    SendRate(h, buckets, calls, clock, ts, limit, window, roomId, id, lo, hi);
    ChannelGrowth(h, buckets, calls, clock, ts, limit, window, roomId, id, lo, hi);
  }

  // ---------------------------------------------------------------- whose traffic counts

  /** The limiter calls made on behalf of one client of one room. */
  function OwnCalls(ts: seq<Timed>, limit: nat, window: nat, roomId: nat, id: ClientId): seq<Call> {
    if ts == [] then []
    else OwnTurns(ts[0], limit, window, roomId, id) + OwnCalls(ts[1..], limit, window, roomId, id)
  }

  function OwnTurns(t: Timed, limit: nat, window: nat, roomId: nat, id: ClientId): seq<Call> {
    if t.act.Broadcast? && t.act.update.roomId == roomId then
      TurnsOf(t.turns.order, t.turns.times, limit, window, roomId, id)
    else []
  }

  function TurnsOf(order: seq<ClientId>, times: seq<nat>, limit: nat, window: nat, roomId: nat, id: ClientId): seq<Call>
    requires |order| == |times|
  {
    if order == [] then []
    else
      var rest := TurnsOf(order[1..], times[1..], limit, window, roomId, id);
      if order[0] == id then [Call(ClientKey(roomId, id), limit, window, times[0])] + rest else rest
  }

  lemma {:induction false} TurnsHaveOwnKey(room: nat, order: seq<ClientId>, times: seq<nat>, limit: nat, window: nat,
                                           roomId: nat, id: ClientId)
    requires |order| == |times|
    ensures Only(CallsOf(room, order, times, limit, window), ClientKey(roomId, id))
         == if room == roomId then TurnsOf(order, times, limit, window, roomId, id) else []
    decreases order
  {
    if order != [] {
      var calls := CallsOf(room, order, times, limit, window);
      assert calls[1..] == CallsOf(room, order[1..], times[1..], limit, window);
      TurnsHaveOwnKey(room, order[1..], times[1..], limit, window, roomId, id);
      if ClientKey(room, order[0]) == ClientKey(roomId, id) {
        ClientKeyInjective(room, order[0], roomId, id);
      }
    }
  }

  lemma {:induction false} OwnKeyIsOwn(ts: seq<Timed>, limit: nat, window: nat, roomId: nat, id: ClientId)
    ensures Only(AllCalls(ts, limit, window), ClientKey(roomId, id)) == OwnCalls(ts, limit, window, roomId, id)
  {
    if ts != [] {
      OwnKeyIsOwn(ts[1..], limit, window, roomId, id);
      OnlyConcat(CallsIn(ts[0], limit, window), AllCalls(ts[1..], limit, window), ClientKey(roomId, id));
      if ts[0].act.Broadcast? {
        TurnsHaveOwnKey(ts[0].act.update.roomId, ts[0].turns.order, ts[0].turns.times, limit, window, roomId, id);
      }
    }
  }

  /**
    The verdicts on one client are those of a limiter that saw only this client's turns in this
    room and keeps all grants: no traffic of other clients or rooms can get it dropped.
   */
  lemma OwnTrafficOnly(h: Hub, from: nat, ts: seq<Timed>, limit: nat, window: nat, roomId: nat, id: ClientId)
    requires RunFits(h, map[], from, ts, limit, window)
    ensures var calls := AllCalls(ts, limit, window);
      && |Answers(map[], calls)| == |calls|
      && AnswersTo(ClientKey(roomId, id), calls, Answers(map[], calls))
         == SimpleAnswers([], OwnCalls(ts, limit, window, roomId, id))
  {
    var calls, key := AllCalls(ts, limit, window), ClientKey(roomId, id);
    RunIsOrdered(h, map[], from, ts, limit, window);
    OrderedCalls(from, calls, ClockAfter(from, ts), limit, window, key);
    KeysAreIndependent(from, window, calls, key);
    OnlyMonotone(from, window, calls, key);
    RefinesSimple(from, window, Only(calls, key));
    OwnKeyIsOwn(ts, limit, window, roomId, id);
  }
}
