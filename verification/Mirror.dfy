/**
  What a subscriber knows: the snapshot it joined with, every event it received applied to it,
  and what overlaying a delta on it gives after it was cut off.
 */
module Mirror {
  import opened Data
  import opened NestedMaps
  import opened WriteLog
  import opened RoomModel
  import opened HubModel

  // ---------------------------------------------------------------- updates and events

  /** The updates that command processing emits for one operation on a room. */
  ghost function UpdatesOf(roomId: nat, r: Room, op: RoomOp): seq<RoomUpdate> {
    var (r', res) := Apply(r, op);
    if res.Err? then []
    else if op.IsWrite() then
      var w := WriteOf(op);
      [RoomUpdate(roomId, w.container, w.key, Some(w.value), Counter(r'))]
    else if op.End? then [RoomUpdate(roomId, STAR, STAR, None, Counter(r'))]
    else []
  }

  /** An operation on a room, and whether the room-level limiter withheld its update from everybody. */
  datatype RoomAct = RoomAct(op: RoomOp, skipped: bool)

  ghost function RoomAfter(r: Room, acts: seq<RoomAct>): Room
    decreases acts
  {
    if acts == [] then r else RoomAfter(Apply(r, acts[0].op).0, acts[1..])
  }

  /** The updates of one operation that are handed to the hub. */
  ghost function StepUpdates(roomId: nat, r: Room, act: RoomAct): seq<RoomUpdate> {
    if act.skipped then [] else UpdatesOf(roomId, r, act.op)
  }

  ghost function Announced(roomId: nat, r: Room, acts: seq<RoomAct>): seq<RoomUpdate>
    decreases acts
  {
    if acts == [] then []
    else StepUpdates(roomId, r, acts[0]) + Announced(roomId, Apply(r, acts[0].op).0, acts[1..])
  }

  /** The events that a client with these containers is sent. */
  function ClientEvents(us: seq<RoomUpdate>, allowed: set<string>): seq<Event> {
    if us == [] then []
    else
      var events := ClientEvents(us[..|us| - 1], allowed);
      var u := us[|us| - 1];
      if Matches(u.container, allowed) then events + [EventOf(u)] else events
  }

  /** The accepted writes among the updates. */
  function UpdateWrites(us: seq<RoomUpdate>): Log {
    if us == [] then []
    else
      var writes := UpdateWrites(us[..|us| - 1]);
      var u := us[|us| - 1];
      if u.value.Some? then writes + [Write(u.container, u.key, u.value.value)] else writes
  }

  function ApplyEvent(m: View, e: Event): View {
    match e
    case CounterEvent(_, _) => m
    case KeyEvent(_, _, c, k, v) => Put(m, c, k, v)
    case DeletedEvent(_, _, c, k) => Put(m, c, k, Null)
  }

  function MirrorOf(base: View, events: seq<Event>): View {
    if events == [] then base
    else ApplyEvent(MirrorOf(base, events[..|events| - 1]), events[|events| - 1])
  }

  /** The highest counter a client has seen. */
  function Seen(joined: nat, events: seq<Event>): nat {
    if events == [] then joined
    else
      var seen := Seen(joined, events[..|events| - 1]);
      var counter := events[|events| - 1].roomCounter;
      if seen < counter then counter else seen
  }

  // ---------------------------------------------------------------- rooms with a buffer

  /** The snapshot the room would have if the open buffer were committed now. */
  function PendingView(r: Room, allowed: set<string>): View {
    SnapshotOf(Index(Full(r)), allowed)
  }

  /** A view without the container that marks room-wide events. */
  function DropStar(m: View): View {
    Without(m, STAR)
  }

  lemma SameUpToStar(m: View, n: View)
    requires Trim(m) && Trim(n)
    requires forall c, k | c != STAR :: Lookup(m, c, k) == Lookup(n, c, k)
    ensures DropStar(m) == DropStar(n)
  {
    forall c, k
      ensures Lookup(DropStar(m), c, k) == Lookup(DropStar(n), c, k)
    {
      assert c != STAR ==> Lookup(DropStar(m), c, k) == Lookup(m, c, k) == Lookup(DropStar(n), c, k);
    }
    SameLookups(DropStar(m), DropStar(n));
  }

  // ---------------------------------------------------------------- concatenation

  lemma {:induction false} UpdatesConcat(a: seq<RoomUpdate>, b: seq<RoomUpdate>, allowed: set<string>)
    ensures ClientEvents(a + b, allowed) == ClientEvents(a, allowed) + ClientEvents(b, allowed)
    ensures UpdateWrites(a + b) == UpdateWrites(a) + UpdateWrites(b)
  {
    if b == [] {
      assert a + b == a;
    } else {
      assert (a + b)[..|a + b| - 1] == a + b[..|b| - 1];
      UpdatesConcat(a, b[..|b| - 1], allowed);
    }
  }

  lemma OneUpdate(u: RoomUpdate, allowed: set<string>)
    ensures ClientEvents([u], allowed) == if Matches(u.container, allowed) then [EventOf(u)] else []
    ensures UpdateWrites([u]) == if u.value.Some? then [Write(u.container, u.key, u.value.value)] else []
  {
    assert [u][..0] == [];
    assert ClientEvents([], allowed) == [] && UpdateWrites([]) == [];
  }

  /** One run after another. */
  lemma {:induction false} ActsConcat(roomId: nat, r: Room, a: seq<RoomAct>, b: seq<RoomAct>, whole: seq<RoomAct>)
    requires whole == a + b
    ensures RoomAfter(r, whole) == RoomAfter(RoomAfter(r, a), b)
    ensures Announced(roomId, r, whole) == Announced(roomId, r, a) + Announced(roomId, RoomAfter(r, a), b)
    decreases a
  {
    if a == [] {
      assert whole == b;
    } else {
      assert whole[0] == a[0] && whole[1..] == a[1..] + b;
      ActsConcat(roomId, Apply(r, a[0].op).0, a[1..], b, whole[1..]);
    }
  }

  lemma EventsUnfold(roomId: nat, r: Room, acts: seq<RoomAct>, rest: seq<RoomAct>, allowed: set<string>)
    requires acts != [] && acts[1..] == rest
    ensures ClientEvents(Announced(roomId, r, acts), allowed)
         == ClientEvents(StepUpdates(roomId, r, acts[0]), allowed)
            + ClientEvents(Announced(roomId, Apply(r, acts[0].op).0, rest), allowed)
  {
    UpdatesConcat(StepUpdates(roomId, r, acts[0]), Announced(roomId, Apply(r, acts[0].op).0, rest), allowed);
  }

  /** While nothing is announced to a client, its events are those of the rest of the run. */
  lemma QuietStart(roomId: nat, r: Room, a: seq<RoomAct>, b: seq<RoomAct>, whole: seq<RoomAct>, allowed: set<string>)
    requires whole == a + b && ClientEvents(Announced(roomId, r, a), allowed) == []
    ensures ClientEvents(Announced(roomId, r, whole), allowed)
         == ClientEvents(Announced(roomId, RoomAfter(r, a), b), allowed)
    ensures RoomAfter(r, whole) == RoomAfter(RoomAfter(r, a), b)
  {
    var events := ClientEvents(Announced(roomId, RoomAfter(r, a), b), allowed);
    ActsConcat(roomId, r, a, b, whole);
    UpdatesConcat(Announced(roomId, r, a), Announced(roomId, RoomAfter(r, a), b), allowed);
    assert [] + events == events;
  }

  lemma {:induction false} LogOnlyGrows(r: Room, acts: seq<RoomAct>)
    ensures r.log <= RoomAfter(r, acts).log
    decreases acts
  {
    if acts != [] {
      LogOnlyGrows(Apply(r, acts[0].op).0, acts[1..]);
    }
  }

  // ---------------------------------------------------------------- the mirror

  /** Only TX.END's update has no value, and it names "*","*". */
  predicate ValueOrStar(u: RoomUpdate) {
    u.value.None? ==> u.container == STAR && u.key == STAR
  }

  function AfterUpdate(m: View, u: RoomUpdate, allowed: set<string>): View {
    if Matches(u.container, allowed) then ApplyEvent(m, EventOf(u)) else m
  }

  lemma MirrorStep(base: View, us: seq<RoomUpdate>, u: RoomUpdate, allowed: set<string>)
    ensures MirrorOf(base, ClientEvents(us + [u], allowed))
         == AfterUpdate(MirrorOf(base, ClientEvents(us, allowed)), u, allowed)
    ensures UpdateWrites(us + [u])
         == if u.value.Some? then UpdateWrites(us) + [Write(u.container, u.key, u.value.value)] else UpdateWrites(us)
  {
    var events := ClientEvents(us, allowed);
    assert (us + [u])[..|us|] == us;
    assert (events + [EventOf(u)])[..|events|] == events;
  }

  lemma LookupAfterUpdate(m: View, u: RoomUpdate, allowed: set<string>, c: string, k: string)
    requires ValueOrStar(u) && c != STAR
    ensures Lookup(AfterUpdate(m, u, allowed), c, k)
         == if u.value.Some? && u.container == c && u.key == k && Allowed(c, allowed) then u.value else Lookup(m, c, k)
  {
  }

  /** Outside "*", applying a client's events is replaying the visible writes. */
  lemma {:induction false} MirrorIsReplay(base: View, us: seq<RoomUpdate>, allowed: set<string>, c: string, k: string)
    requires Trim(base) && c != STAR
    requires forall i | 0 <= i < |us| :: ValueOrStar(us[i])
    ensures Trim(MirrorOf(base, ClientEvents(us, allowed)))
    ensures Lookup(MirrorOf(base, ClientEvents(us, allowed)), c, k)
         == if Allowed(c, allowed) && LastValue(UpdateWrites(us), c, k).Some? then LastValue(UpdateWrites(us), c, k)
            else Lookup(base, c, k)
  {
    if us != [] {
      var front, u := us[..|us| - 1], us[|us| - 1];
      assert us == front + [u];
      MirrorIsReplay(base, front, allowed, c, k);
      MirrorStep(base, front, u, allowed);
      ApplyEventKeepsTrim(MirrorOf(base, ClientEvents(front, allowed)), EventOf(u));
      LookupAfterUpdate(MirrorOf(base, ClientEvents(front, allowed)), u, allowed, c, k);
      if u.value.Some? {
        LastValueAppend(UpdateWrites(front), Write(u.container, u.key, u.value.value), c, k);
      }
    }
  }

  lemma ApplyEventKeepsTrim(m: View, e: Event)
    requires Trim(m)
    ensures Trim(ApplyEvent(m, e))
  {
    if !e.CounterEvent? {
      assert e.key in ApplyEvent(m, e)[e.container];
    }
  }

  lemma {:induction false} AnnouncedShape(roomId: nat, r: Room, acts: seq<RoomAct>)
    ensures forall i | 0 <= i < |Announced(roomId, r, acts)| :: ValueOrStar(Announced(roomId, r, acts)[i])
    decreases acts
  {
    if acts != [] {
      AnnouncedShape(roomId, Apply(r, acts[0].op).0, acts[1..]);
    }
  }

  /** What a client joining at `r` knows after a run: the log it joined with and the writes announced since. */
  ghost function Told(roomId: nat, r: Room, acts: seq<RoomAct>): Log {
    r.log + UpdateWrites(Announced(roomId, r, acts))
  }

  /** The mirror of a client that joins at `r` and receives everything announced to it. */
  ghost function MirrorAfter(roomId: nat, r: Room, acts: seq<RoomAct>, allowed: set<string>): View {
    MirrorOf(Snapshot(r, allowed), ClientEvents(Announced(roomId, r, acts), allowed))
  }

  lemma MirrorLookup(roomId: nat, r: Room, acts: seq<RoomAct>, allowed: set<string>, c: string, k: string)
    requires c != STAR
    ensures Trim(MirrorAfter(roomId, r, acts, allowed))
    ensures Lookup(MirrorAfter(roomId, r, acts, allowed), c, k)
         == if Allowed(c, allowed) then LastValue(Told(roomId, r, acts), c, k) else None
  {
    var us := Announced(roomId, r, acts);
    TrimSnapshot(r.log, allowed);
    AnnouncedShape(roomId, r, acts);
    MirrorIsReplay(Snapshot(r, allowed), us, allowed, c, k);
    LookupSnapshot(r.log, allowed, c, k);
    LastValueConcat(r.log, UpdateWrites(us), c, k);
  }

  /** Over every run, a mirror is the snapshot of what its client was told. */
  lemma MirrorIsTold(roomId: nat, r: Room, acts: seq<RoomAct>, allowed: set<string>)
    ensures DropStar(MirrorAfter(roomId, r, acts, allowed))
         == DropStar(SnapshotOf(Index(Told(roomId, r, acts)), allowed))
  {
    var m, told := MirrorAfter(roomId, r, acts, allowed), Told(roomId, r, acts);
    forall c, k | c != STAR
      ensures Lookup(m, c, k) == Lookup(SnapshotOf(Index(told), allowed), c, k)
    {
      MirrorLookup(roomId, r, acts, allowed, c, k);
      LookupSnapshot(told, allowed, c, k);
    }
    MirrorLookup(roomId, r, acts, allowed, PUBLIC, PUBLIC);
    TrimSnapshot(told, allowed);
    SameUpToStar(m, SnapshotOf(Index(told), allowed));
  }

  // ---------------------------------------------------------------- when two logs look the same

  /** A key that a mirror claim is about. */
  predicate InView(c: string, allowed: set<string>) {
    Allowed(c, allowed) && c != STAR
  }

  /** On these keys, two logs end at the same value wherever the client may look. */
  ghost predicate AgreeOn(keys: set<(string, string)>, x: Log, y: Log, allowed: set<string>) {
    forall c, k | (c, k) in keys && InView(c, allowed) :: LastValue(x, c, k) == LastValue(y, c, k)
  }

  lemma TouchedMeaning(log: Log, c: string, k: string)
    ensures (c, k) in Touched(log) <==> LastValue(log, c, k).Some?
  {
    LastPosMeaning(log, c, k);
    if LastPos(log, c, k) != 0 {
      assert log[LastPos(log, c, k) - 1] in log;
    }
  }

  /** Two logs give a client the same view exactly when they agree on any keys that include all their differences. */
  lemma SameViewIff(keys: set<(string, string)>, x: Log, y: Log, allowed: set<string>)
    requires forall c, k | InView(c, allowed) && (c, k) !in keys :: LastValue(x, c, k) == LastValue(y, c, k)
    ensures DropStar(SnapshotOf(Index(x), allowed)) == DropStar(SnapshotOf(Index(y), allowed))
       <==> AgreeOn(keys, x, y, allowed)
  {
    var m, n := SnapshotOf(Index(x), allowed), SnapshotOf(Index(y), allowed);
    forall c, k
      ensures Lookup(m, c, k) == (if Allowed(c, allowed) then LastValue(x, c, k) else None)
      ensures Lookup(n, c, k) == (if Allowed(c, allowed) then LastValue(y, c, k) else None)
      ensures c != STAR ==> Lookup(DropStar(m), c, k) == Lookup(m, c, k) && Lookup(DropStar(n), c, k) == Lookup(n, c, k)
    {
      LookupSnapshot(x, allowed, c, k);
      LookupSnapshot(y, allowed, c, k);
    }
    if AgreeOn(keys, x, y, allowed) {
      TrimSnapshot(x, allowed);
      TrimSnapshot(y, allowed);
      SameUpToStar(m, n);
    }
  }

  // ---------------------------------------------------------------- the mirror over every run

  /** No accepted write is withheld, and no write is lost to an abort. */
  ghost predicate Steady(r: Room, acts: seq<RoomAct>)
    decreases acts
  {
    acts != [] ==>
      && (acts[0].skipped && acts[0].op.IsWrite() ==> Apply(r, acts[0].op).1.Err?)
      && (acts[0].op.Abort? ==> Pending(r) == [])
      && Steady(Apply(r, acts[0].op).0, acts[1..])
  }

  /** What one operation adds to the keys on which a client may be wrong, and what it takes away. */
  ghost function AstrayStep(keys: set<(string, string)>, r: Room, act: RoomAct): set<(string, string)> {
    if Apply(r, act.op).1.Err? then keys
    else if act.op.Abort? then keys + Touched(Pending(r))
    else if act.op.IsWrite() then
      var key := (act.op.container, act.op.key);
      if act.skipped then keys + {key} else keys - {key}
    else keys
  }

  ghost function AstrayFrom(keys: set<(string, string)>, r: Room, acts: seq<RoomAct>): set<(string, string)>
    decreases acts
  {
    if acts == [] then keys else AstrayFrom(AstrayStep(keys, r, acts[0]), Apply(r, acts[0].op).0, acts[1..])
  }

  /**
    The keys on which a client that joins at `r` may be wrong: buffered before it joined, written
    by a withheld update or discarded by an abort, and not announced since.
   */
  ghost function Astray(r: Room, acts: seq<RoomAct>): set<(string, string)> {
    AstrayFrom(Touched(Pending(r)), r, acts)
  }

  lemma StepTold(roomId: nat, r: Room, act: RoomAct, told: Log, keys: set<(string, string)>, c: string, k: string)
    requires (c, k) !in keys ==> LastValue(told, c, k) == LastValue(Full(r), c, k)
    ensures (c, k) !in AstrayStep(keys, r, act) ==>
      LastValue(told + UpdateWrites(StepUpdates(roomId, r, act)), c, k) == LastValue(Full(Apply(r, act.op).0), c, k)
  {
    if act.op.IsWrite() && Apply(r, act.op).1.Ok? {
      WriteTold(roomId, r, act, told, c, k);
    } else {
      NothingWritten(roomId, r, act);
      assert told + [] == told;
      if act.op.Abort? {
        LastValueConcat(r.log, Pending(r), c, k);
        TouchedMeaning(Pending(r), c, k);
        assert Full(Apply(r, Abort).0) == r.log;
      }
    }
  }

  lemma WriteTold(roomId: nat, r: Room, act: RoomAct, told: Log, c: string, k: string)
    requires act.op.IsWrite() && Apply(r, act.op).1.Ok?
    ensures var told', full' := told + UpdateWrites(StepUpdates(roomId, r, act)), Full(Apply(r, act.op).0);
      var w := WriteOf(act.op);
      if w.container == c && w.key == k then
        LastValue(full', c, k) == Some(w.value) && (!act.skipped ==> LastValue(told', c, k) == Some(w.value))
      else LastValue(told', c, k) == LastValue(told, c, k) && LastValue(full', c, k) == LastValue(Full(r), c, k)
  {
    var us, w := StepUpdates(roomId, r, act), WriteOf(act.op);
    FullGrows(r, act.op);
    LastValueAppend(told, w, c, k);
    LastValueAppend(Full(r), w, c, k);
    if act.skipped {
      assert told + [] == told;
    } else {
      OneUpdate(us[0], {});
      assert us == [us[0]];
    }
  }

  /** Operations that write nothing announce no write; only an abort takes any back. */
  lemma NothingWritten(roomId: nat, r: Room, act: RoomAct)
    requires act.op.IsWrite() ==> Apply(r, act.op).1.Err?
    ensures UpdateWrites(StepUpdates(roomId, r, act)) == []
    ensures !act.op.Abort? || Pending(r) == [] ==> Full(Apply(r, act.op).0) == Full(r)
  {
    var us := StepUpdates(roomId, r, act);
    if us != [] {
      OneUpdate(us[0], {});
      assert us == [us[0]];
    }
    assert r.log + [] == r.log;
  }

  /** Outside the astray keys, a client was told the value that the room holds. */
  lemma {:induction false} OnlyAstrayDiffer(roomId: nat, r: Room, acts: seq<RoomAct>, told: Log,
                                           keys: set<(string, string)>, c: string, k: string)
    requires (c, k) !in keys ==> LastValue(told, c, k) == LastValue(Full(r), c, k)
    ensures (c, k) !in AstrayFrom(keys, r, acts) ==>
      LastValue(told + UpdateWrites(Announced(roomId, r, acts)), c, k) == LastValue(Full(RoomAfter(r, acts)), c, k)
    decreases acts
  {
    if acts == [] {
      assert told + [] == told;
    } else {
      var r1, us := Apply(r, acts[0].op).0, StepUpdates(roomId, r, acts[0]);
      var later := Announced(roomId, r1, acts[1..]);
      StepTold(roomId, r, acts[0], told, keys, c, k);
      OnlyAstrayDiffer(roomId, r1, acts[1..], told + UpdateWrites(us), AstrayStep(keys, r, acts[0]), c, k);
      UpdatesConcat(us, later, {});
      LogsAssociate(told, UpdateWrites(us), UpdateWrites(later));
    }
  }

  lemma LogsAssociate(a: Log, b: Log, c: Log)
    ensures a + b + c == a + (b + c)
  {
  }

  lemma AstrayCovers(roomId: nat, r: Room, acts: seq<RoomAct>, c: string, k: string)
    ensures (c, k) !in Astray(r, acts) ==>
      LastValue(Told(roomId, r, acts), c, k) == LastValue(Full(RoomAfter(r, acts)), c, k)
  {
    TouchedMeaning(Pending(r), c, k);
    LastValueConcat(r.log, Pending(r), c, k);
    OnlyAstrayDiffer(roomId, r, acts, r.log, Touched(Pending(r)), c, k);
  }

  /** A steady run loses nothing: what is announced is what is added to log and buffer, in order. */
  lemma {:induction false} SteadyRun(roomId: nat, r: Room, acts: seq<RoomAct>, keys: set<(string, string)>)
    requires Steady(r, acts)
    ensures AstrayFrom(keys, r, acts) <= keys
    ensures Full(RoomAfter(r, acts)) == Full(r) + UpdateWrites(Announced(roomId, r, acts))
    decreases acts
  {
    if acts == [] {
      assert Full(r) + [] == Full(r);
    } else {
      var r1, us := Apply(r, acts[0].op).0, StepUpdates(roomId, r, acts[0]);
      var later := Announced(roomId, r1, acts[1..]);
      SteadyRun(roomId, r1, acts[1..], AstrayStep(keys, r, acts[0]));
      SteadyStep(roomId, r, acts[0]);
      UpdatesConcat(us, later, {});
      LogsAssociate(Full(r), UpdateWrites(us), UpdateWrites(later));
    }
  }

  lemma SteadyStep(roomId: nat, r: Room, act: RoomAct)
    requires act.skipped && act.op.IsWrite() ==> Apply(r, act.op).1.Err?
    requires act.op.Abort? ==> Pending(r) == []
    ensures Full(Apply(r, act.op).0) == Full(r) + UpdateWrites(StepUpdates(roomId, r, act))
    ensures forall keys :: AstrayStep(keys, r, act) <= keys
  {
    var us := StepUpdates(roomId, r, act);
    if act.op.IsWrite() && Apply(r, act.op).1.Ok? {
      FullGrows(r, act.op);
      OneUpdate(us[0], {});
      assert us == [us[0]];
    } else {
      NothingWritten(roomId, r, act);
      assert Full(r) + [] == Full(r);
    }
  }

  /** The pending view is the snapshot after committing. */
  lemma PendingViewIsCommit(r: Room, allowed: set<string>)
    ensures PendingView(r, allowed)
         == if r.tx.Some? then Snapshot(Apply(r, End).0, allowed) else Snapshot(r, allowed)
  {
    assert r.log + [] == r.log;
  }

  /**
    Over every run, whatever is aborted, withheld or missed by joining late: a mirror is the
    snapshot the room would have if the open buffer were committed now if and only if the client
    was told the value that the room holds for each astray key it may read. A client that joins
    with nothing buffered and sees a steady run is always in step.
   */
  lemma MirrorInvariant(roomId: nat, r: Room, acts: seq<RoomAct>, allowed: set<string>)
    ensures var m, r' := MirrorAfter(roomId, r, acts, allowed), RoomAfter(r, acts);
      && (DropStar(m) == DropStar(PendingView(r', allowed))
          <==> AgreeOn(Astray(r, acts), Told(roomId, r, acts), Full(r'), allowed))
      && (Pending(r) == [] && Steady(r, acts) ==> DropStar(m) == DropStar(PendingView(r', allowed)))
      && PendingView(r', allowed)
         == if r'.tx.Some? then Snapshot(Apply(r', End).0, allowed) else Snapshot(r', allowed)
  {
    var r', told := RoomAfter(r, acts), Told(roomId, r, acts);
    forall c, k | InView(c, allowed) && (c, k) !in Astray(r, acts)
      ensures LastValue(told, c, k) == LastValue(Full(r'), c, k)
    {
      AstrayCovers(roomId, r, acts, c, k);
    }
    MirrorIsTold(roomId, r, acts, allowed);
    SameViewIff(Astray(r, acts), told, Full(r'), allowed);
    PendingViewIsCommit(r', allowed);
    if Pending(r) == [] && Steady(r, acts) {
      assert Touched([]) == {};
      SteadyRun(roomId, r, acts, Touched(Pending(r)));
    }
  }

  // ---------------------------------------------------------------- one abort, one late join, one withheld update

  /** Each of these writes that a client could notice, and that is not written again later, repeats the log's value. */
  ghost predicate Unnoticed(log: Log, pending: Log, later: Log, allowed: set<string>) {
    forall i | 0 <= i < |pending| && InView(pending[i].container, allowed)
               && (pending[i].container, pending[i].key) !in Touched(later) ::
      LastValue(pending, pending[i].container, pending[i].key) == LastValue(log, pending[i].container, pending[i].key)
  }

  lemma LaterWins(x: Log, later: Log, c: string, k: string)
    ensures LastValue(x + later, c, k)
         == if (c, k) in Touched(later) then LastValue(later, c, k) else LastValue(x, c, k)
  {
    LastValueConcat(x, later, c, k);
    TouchedMeaning(later, c, k);
  }

  /** A log with and without some writes in the middle. */
  lemma UnnoticedIff(log: Log, pending: Log, later: Log, allowed: set<string>)
    ensures DropStar(SnapshotOf(Index(log + pending + later), allowed))
            == DropStar(SnapshotOf(Index(log + later), allowed))
       <==> Unnoticed(log, pending, later, allowed)
  {
    var keys := Touched(pending) - Touched(later);
    forall c, k
      ensures (c, k) !in keys ==> LastValue(log + pending + later, c, k) == LastValue(log + later, c, k)
      ensures (c, k) in keys ==>
        LastValue(log + pending + later, c, k) == LastValue(pending, c, k)
        && LastValue(log + later, c, k) == LastValue(log, c, k)
    {
      LaterWins(log + pending, later, c, k);
      LaterWins(log, later, c, k);
      LaterWins(log, pending, c, k);
    }
    SameViewIff(keys, log + pending + later, log + later, allowed);
    assert forall i | 0 <= i < |pending| :: pending[i] in pending;
  }

  lemma ToldAround(roomId: nat, r: Room, a: seq<RoomAct>, act: RoomAct, b: seq<RoomAct>)
    requires Pending(r) == [] && Steady(r, a) && UpdateWrites(StepUpdates(roomId, RoomAfter(r, a), act)) == []
    requires Steady(Apply(RoomAfter(r, a), act.op).0, b)
    ensures var q, q' := RoomAfter(r, a), Apply(RoomAfter(r, a), act.op).0;
      var later := UpdateWrites(Announced(roomId, q', b));
      && Told(roomId, r, a + ([act] + b)) == Full(q) + later
      && Full(RoomAfter(r, a + ([act] + b))) == Full(q') + later
  {
    var q := RoomAfter(r, a);
    var q' := Apply(q, act.op).0;
    var first, us, rest := Announced(roomId, r, a), StepUpdates(roomId, q, act), Announced(roomId, q', b);
    ActsConcat(roomId, r, a, [act] + b, a + ([act] + b));
    assert ([act] + b)[1..] == b;
    UpdatesConcat(first, us + rest, {});
    UpdatesConcat(us, rest, {});
    SteadyRun(roomId, r, a, {});
    SteadyRun(roomId, q', b, {});
    assert Full(r) == r.log && [] + UpdateWrites(rest) == UpdateWrites(rest);
    LogsAssociate(r.log, UpdateWrites(first), UpdateWrites(rest));
  }

  const ABORT := RoomAct(Abort, false)

  /**
    A client that followed a transaction up to its abort is in step at the end of the run exactly
    when every write it noticed in the buffer repeats the committed value or is written again
    after the abort.
   */
  lemma AbortKeepsMirrorIff(roomId: nat, r: Room, a: seq<RoomAct>, b: seq<RoomAct>, allowed: set<string>)
    requires Pending(r) == [] && Steady(r, a) && Steady(Apply(RoomAfter(r, a), Abort).0, b)
    ensures var q, acts := RoomAfter(r, a), a + ([ABORT] + b);
      var later := UpdateWrites(Announced(roomId, Apply(q, Abort).0, b));
      DropStar(MirrorAfter(roomId, r, acts, allowed)) == DropStar(PendingView(RoomAfter(r, acts), allowed))
      <==> Unnoticed(q.log, Pending(q), later, allowed)
  {
    var q, acts := RoomAfter(r, a), a + ([ABORT] + b);
    var q' := Apply(q, Abort).0;
    ToldAround(roomId, r, a, ABORT, b);
    MirrorIsTold(roomId, r, acts, allowed);
    assert Full(q') == q.log;
    UnnoticedIff(q.log, Pending(q), UpdateWrites(Announced(roomId, q', b)), allowed);
  }

  /**
    A client that joins inside a transaction is in step at the end of the run exactly when every
    write buffered before repeats the committed value or is written again after it joined.
   */
  lemma JoinInsideIff(roomId: nat, r: Room, b: seq<RoomAct>, allowed: set<string>)
    requires Steady(r, b)
    ensures var later := UpdateWrites(Announced(roomId, r, b));
      DropStar(MirrorAfter(roomId, r, b, allowed)) == DropStar(PendingView(RoomAfter(r, b), allowed))
      <==> Unnoticed(r.log, Pending(r), later, allowed)
  {
    SteadyRun(roomId, r, b, {});
    MirrorIsTold(roomId, r, b, allowed);
    UnnoticedIff(r.log, Pending(r), UpdateWrites(Announced(roomId, r, b)), allowed);
  }

  /**
    After one withheld update a client is in step at the end of the run exactly when it may not
    read the key, the key is written again later, or the write repeated its value.
   */
  lemma SkipKeepsStepIff(roomId: nat, r: Room, a: seq<RoomAct>, op: RoomOp, b: seq<RoomAct>, allowed: set<string>)
    requires Pending(r) == [] && Steady(r, a)
    requires op.IsWrite() && Apply(RoomAfter(r, a), op).1.Ok? && Steady(Apply(RoomAfter(r, a), op).0, b)
    ensures var q, acts, w := RoomAfter(r, a), a + ([RoomAct(op, true)] + b), WriteOf(op);
      var later := UpdateWrites(Announced(roomId, Apply(q, op).0, b));
      DropStar(MirrorAfter(roomId, r, acts, allowed)) == DropStar(PendingView(RoomAfter(r, acts), allowed))
      <==> !InView(w.container, allowed) || (w.container, w.key) in Touched(later)
           || LastValue(Full(q), w.container, w.key) == Some(w.value)
  {
    var q, act, w := RoomAfter(r, a), RoomAct(op, true), WriteOf(op);
    var acts := a + ([act] + b);
    var later := UpdateWrites(Announced(roomId, Apply(q, op).0, b));
    ToldAround(roomId, r, a, act, b);
    FullGrows(q, op);
    MirrorIsTold(roomId, r, acts, allowed);
    UnnoticedIff(Full(q), [w], later, allowed);
    OneUnnoticed(Full(q), w, later, allowed);
  }

  lemma OneUnnoticed(log: Log, w: Write, later: Log, allowed: set<string>)
    ensures Unnoticed(log, [w], later, allowed)
       <==> !InView(w.container, allowed) || (w.container, w.key) in Touched(later)
            || LastValue(log, w.container, w.key) == Some(w.value)
  {
    OneWrite(w);
    assert [w][0] == w;
  }

  lemma OneWrite(w: Write)
    ensures LastValue([w], w.container, w.key) == Some(w.value)
  {
    LastPosUnique([w], w.container, w.key, 1);
  }

  // ---------------------------------------------------------------- runs that do leave a client wrong

  /** An open transaction with one SET in its buffer, and how a fresh room gets there. */
  function Opened(c: string, k: string, v: Value): Room {
    Room([], Some([Write(c, k, v)]))
  }

  function Opening(c: string, k: string, v: Value): seq<RoomAct> {
    [RoomAct(Begin, false), RoomAct(Set(c, k, v), false)]
  }

  lemma OpeningRun(c: string, k: string, v: Value)
    ensures RoomAfter(FRESH_ROOM, Opening(c, k, v)) == Opened(c, k, v)
    ensures Steady(FRESH_ROOM, Opening(c, k, v))
  {
    var acts, r1 := Opening(c, k, v), Room([], Some([]));
    assert acts[1..] == [acts[1]] && acts[1..][1..] == [];
    assert Apply(FRESH_ROOM, Begin).0 == r1;
    assert [] + [Write(c, k, v)] == [Write(c, k, v)];
    assert Apply(r1, acts[1].op).0 == Opened(c, k, v);
    assert RoomAfter(r1, acts[1..]) == RoomAfter(Opened(c, k, v), []);
    assert Steady(r1, acts[1..]);
  }

  lemma FirstWriteIsNoticed(c: string, k: string, v: Value, allowed: set<string>)
    requires InView(c, allowed)
    ensures !Unnoticed([], [Write(c, k, v)], [], allowed)
  {
    var w := Write(c, k, v);
    OneWrite(w);
    assert [w][0] == w && LastValue([], c, k) == None && Touched([]) == {};
  }

  /** Begin, SET, abort: the client keeps a value that the room never held. */
  lemma AbortedRunFails(roomId: nat, c: string, k: string, v: Value, allowed: set<string>)
    requires InView(c, allowed)
    ensures var acts := Opening(c, k, v) + [ABORT];
      && RoomAfter(FRESH_ROOM, acts) == FRESH_ROOM
      && DropStar(MirrorAfter(roomId, FRESH_ROOM, acts, allowed)) != DropStar(Snapshot(FRESH_ROOM, allowed))
  {
    var a, q := Opening(c, k, v), Opened(c, k, v);
    OpeningRun(c, k, v);
    FirstWriteIsNoticed(c, k, v, allowed);
    assert [ABORT] + [] == [ABORT] && [ABORT][1..] == [];
    ActsConcat(roomId, FRESH_ROOM, a, [ABORT], a + [ABORT]);
    assert RoomAfter(q, [ABORT]) == RoomAfter(FRESH_ROOM, []);
    AbortKeepsMirrorIff(roomId, FRESH_ROOM, a, [], allowed);
    PendingViewIsCommit(FRESH_ROOM, allowed);
  }

  /** Joining between the SET and the end of its transaction: the client never learns the value. */
  lemma JoinInsideFails(roomId: nat, c: string, k: string, v: Value, allowed: set<string>)
    requires InView(c, allowed)
    ensures var r, acts := RoomAfter(FRESH_ROOM, Opening(c, k, v)), [RoomAct(End, false)];
      && RoomAfter(r, acts).tx.None?
      && DropStar(MirrorAfter(roomId, r, acts, allowed)) != DropStar(Snapshot(RoomAfter(r, acts), allowed))
  {
    var r, acts := Opened(c, k, v), [RoomAct(End, false)];
    OpeningRun(c, k, v);
    FirstWriteIsNoticed(c, k, v, allowed);
    assert acts[1..] == [];
    var r' := Apply(r, End).0;
    assert RoomAfter(r, acts) == RoomAfter(r', []) == r' && Steady(r', []);
    NothingWritten(roomId, r, acts[0]);
    assert Announced(roomId, r, acts) == StepUpdates(roomId, r, acts[0]) + Announced(roomId, r', []);
    assert Announced(roomId, r, acts) == StepUpdates(roomId, r, acts[0]);
    JoinInsideIff(roomId, r, acts, allowed);
    PendingViewIsCommit(r', allowed);
  }

  /** One withheld SET: the client never learns the value. */
  lemma SkippedRunFails(roomId: nat, c: string, k: string, v: Value, allowed: set<string>)
    requires InView(c, allowed)
    ensures var acts := [RoomAct(Set(c, k, v), true)];
      && RoomAfter(FRESH_ROOM, acts).tx.None?
      && DropStar(MirrorAfter(roomId, FRESH_ROOM, acts, allowed))
         != DropStar(Snapshot(RoomAfter(FRESH_ROOM, acts), allowed))
  {
    var op: RoomOp := Set(c, k, v);
    var acts, r' := [RoomAct(op, true)], Apply(FRESH_ROOM, op).0;
    assert acts[1..] == [] && [] + (acts + []) == acts;
    assert RoomAfter(FRESH_ROOM, acts) == RoomAfter(r', []) == r';
    assert Touched(UpdateWrites(Announced(roomId, r', []))) == {};
    SkipKeepsStepIff(roomId, FRESH_ROOM, [], op, [], allowed);
    assert LastValue(Full(FRESH_ROOM), c, k) == None;
    PendingViewIsCommit(r', allowed);
  }

  // ---------------------------------------------------------------- counters

  ghost predicate CountersAscend(from: nat, events: seq<Event>) {
    && (forall i, j | 0 <= i < j < |events| :: events[i].roomCounter <= events[j].roomCounter)
    && (forall i | 0 <= i < |events| :: from <= events[i].roomCounter)
  }

  lemma AscendConcat(from: nat, to: nat, a: seq<Event>, b: seq<Event>)
    requires from <= to && CountersAscend(from, a) && CountersAscend(to, b)
    requires forall i | 0 <= i < |a| :: a[i].roomCounter <= to
    ensures CountersAscend(from, a + b)
  {
  }

  lemma StepCounters(roomId: nat, r: Room, act: RoomAct, allowed: set<string>)
    ensures var r1 := Apply(r, act.op).0;
      var events := ClientEvents(StepUpdates(roomId, r, act), allowed);
      Counter(r) <= Counter(r1) && |events| <= 1 && forall i | 0 <= i < |events| :: events[i].roomCounter == Counter(r1)
  {
    var us := StepUpdates(roomId, r, act);
    if us != [] {
      OneUpdate(us[0], allowed);
      assert us == [us[0]];
    }
  }

  /** The counters a client receives never decrease, over every run. */
  lemma {:induction false} CountersNeverDecrease(roomId: nat, r: Room, acts: seq<RoomAct>, allowed: set<string>)
    ensures CountersAscend(Counter(r), ClientEvents(Announced(roomId, r, acts), allowed))
    decreases acts
  {
    if acts != [] {
      var r1 := Apply(r, acts[0].op).0;
      var us, rest := StepUpdates(roomId, r, acts[0]), Announced(roomId, r1, acts[1..]);
      CountersNeverDecrease(roomId, r1, acts[1..], allowed);
      UpdatesConcat(us, rest, allowed);
      StepCounters(roomId, r, acts[0], allowed);
      AscendConcat(Counter(r), Counter(r1), ClientEvents(us, allowed), ClientEvents(rest, allowed));
    }
  }

  // ---------------------------------------------------------------- one write, event by event

  /**
    A mirror in step stays in step over one write exactly when the write is not to "*", or the
    client may read "*" and the key is another one or keeps its value, or it may not and the
    pair is "*","*".
   */
  lemma WriteKeepsStepIff(log: Log, w: Write, allowed: set<string>, u: RoomUpdate)
    requires u.container == w.container && u.key == w.key && u.value == Some(w.value)
    ensures AfterUpdate(SnapshotOf(Index(log), allowed), u, allowed) == SnapshotOf(Index(log + [w]), allowed)
       <==> (w.container == STAR ==>
               if STAR in allowed then w.key != STAR || LastValue(log, STAR, STAR) == Some(w.value) else w.key == STAR)
  {
    var m, after := AfterUpdate(SnapshotOf(Index(log), allowed), u, allowed), SnapshotOf(Index(log + [w]), allowed);
    TrimSnapshot(log, allowed);
    TrimSnapshot(log + [w], allowed);
    ApplyEventKeepsTrim(SnapshotOf(Index(log), allowed), EventOf(u));
    WriteAtKey(log, w, allowed, u, w.container, w.key);
    if Lookup(m, w.container, w.key) == Lookup(after, w.container, w.key) {
      forall c, k
        ensures Lookup(m, c, k) == Lookup(after, c, k)
      {
        WriteAtKey(log, w, allowed, u, c, k);
      }
      SameLookups(m, after);
    }
  }

  lemma WriteAtKey(log: Log, w: Write, allowed: set<string>, u: RoomUpdate, c: string, k: string)
    requires u.container == w.container && u.key == w.key && u.value == Some(w.value)
    ensures var before, after := SnapshotOf(Index(log), allowed), SnapshotOf(Index(log + [w]), allowed);
      var m, here := AfterUpdate(before, u, allowed), w.container == c && w.key == k;
      && Lookup(m, c, k) == (if here && Matches(c, allowed) && (c != STAR || k != STAR) then Some(w.value)
                             else if Allowed(c, allowed) then LastValue(log, c, k) else None)
      && Lookup(after, c, k) == (if !Allowed(c, allowed) then None
                                 else if here then Some(w.value) else LastValue(log, c, k))
  {
    SnapshotAppend(log, w, allowed, c, k);
  }

  lemma SnapshotAppend(log: Log, w: Write, allowed: set<string>, c: string, k: string)
    ensures Lookup(SnapshotOf(Index(log), allowed), c, k) == if Allowed(c, allowed) then LastValue(log, c, k) else None
    ensures Lookup(SnapshotOf(Index(log + [w]), allowed), c, k)
         == if !Allowed(c, allowed) then None
            else if w.container == c && w.key == k then Some(w.value) else LastValue(log, c, k)
  {
    LookupSnapshot(log, allowed, c, k);
    LookupSnapshot(log + [w], allowed, c, k);
    LastValueAppend(log, w, c, k);
  }
}
