/** Catching up after a cut: the mirror at the cut, overlaid with the delta since the highest counter seen. */
module Resume {
  import opened Data
  import opened NestedMaps
  import opened WriteLog
  import opened RoomModel
  import opened HubModel
  import opened Mirror

  // ---------------------------------------------------------------- where the client was cut off

  /** The shortest start of a run that announces a client's first n events. */
  ghost function Cut(roomId: nat, r: Room, acts: seq<RoomAct>, allowed: set<string>, n: nat): (heard: seq<RoomAct>)
    ensures heard <= acts
    decreases acts
  {
    if n == 0 || acts == [] then []
    else
      var first := |ClientEvents(StepUpdates(roomId, r, acts[0]), allowed)|;
      [acts[0]] + Cut(roomId, Apply(r, acts[0].op).0, acts[1..], allowed, if first < n then n - first else 0)
  }

  lemma TakeBoth(first: seq<Event>, later: seq<Event>, n: nat)
    requires |first| <= n <= |first + later|
    ensures (first + later)[..n] == first + later[..n - |first|]
  {
  }

  lemma CutUnfolds(roomId: nat, r: Room, acts: seq<RoomAct>, allowed: set<string>, n: nat, first: nat)
    requires acts != [] && n > 0 && first == |ClientEvents(StepUpdates(roomId, r, acts[0]), allowed)| <= n
    ensures var cut := Cut(roomId, r, acts, allowed, n);
      cut != [] && cut[0] == acts[0] && cut[1..] == Cut(roomId, Apply(r, acts[0].op).0, acts[1..], allowed, n - first)
  {
  }

  /** The events of a run for a client. */
  ghost function EventsFor(roomId: nat, r: Room, acts: seq<RoomAct>, allowed: set<string>): seq<Event> {
    ClientEvents(Announced(roomId, r, acts), allowed)
  }

  lemma EventsTail(roomId: nat, r: Room, acts: seq<RoomAct>, allowed: set<string>, n: nat, first: seq<Event>)
    requires 0 < n <= |EventsFor(roomId, r, acts, allowed)| && acts != []
    requires first == ClientEvents(StepUpdates(roomId, r, acts[0]), allowed)
    ensures var later := EventsFor(roomId, Apply(r, acts[0].op).0, acts[1..], allowed);
      && |first| <= 1 && n - |first| <= |later|
      && EventsFor(roomId, r, acts, allowed)[..n] == first + later[..n - |first|]
  {
    StepCounters(roomId, r, acts[0], allowed);
    EventsUnfold(roomId, r, acts, acts[1..], allowed);
    TakeBoth(first, ClientEvents(Announced(roomId, Apply(r, acts[0].op).0, acts[1..]), allowed), n);
  }

  /** The client heard exactly its first n events by the cut. */
  lemma {:induction false} CutFits(roomId: nat, r: Room, acts: seq<RoomAct>, allowed: set<string>, n: nat,
                                   cut: seq<RoomAct>)
    requires n <= |EventsFor(roomId, r, acts, allowed)| && cut == Cut(roomId, r, acts, allowed, n)
    ensures EventsFor(roomId, r, cut, allowed) == EventsFor(roomId, r, acts, allowed)[..n]
    decreases acts
  {
    if n > 0 && acts != [] {
      var first := ClientEvents(StepUpdates(roomId, r, acts[0]), allowed);
      EventsTail(roomId, r, acts, allowed, n, first);
      CutUnfolds(roomId, r, acts, allowed, n, |first|);
      CutFits(roomId, Apply(r, acts[0].op).0, acts[1..], allowed, n - |first|, cut[1..]);
      EventsCons(roomId, r, cut, cut[1..], allowed);
    }
  }

  lemma EventsCons(roomId: nat, r: Room, acts: seq<RoomAct>, rest: seq<RoomAct>, allowed: set<string>)
    requires acts != [] && acts[1..] == rest
    ensures EventsFor(roomId, r, acts, allowed)
         == ClientEvents(StepUpdates(roomId, r, acts[0]), allowed)
            + EventsFor(roomId, Apply(r, acts[0].op).0, rest, allowed)
  {
    EventsUnfold(roomId, r, acts, rest, allowed);
  }

  /**
    The highest counter a client saw is the room's counter at the cut: nothing that was committed
    up to there is newer.
   */
  lemma {:induction false} SeenAtCut(roomId: nat, r: Room, acts: seq<RoomAct>, allowed: set<string>, n: nat,
                                     joined: nat, cut: seq<RoomAct>)
    requires n <= |EventsFor(roomId, r, acts, allowed)| && joined <= Counter(r)
    requires cut == Cut(roomId, r, acts, allowed, n)
    ensures Seen(joined, EventsFor(roomId, r, acts, allowed)[..n])
         == if n == 0 then joined else Counter(RoomAfter(r, cut))
    decreases acts
  {
    if n > 0 && acts != [] {
      var r1, first := Apply(r, acts[0].op).0, ClientEvents(StepUpdates(roomId, r, acts[0]), allowed);
      var later, m := EventsFor(roomId, r1, acts[1..], allowed), n - |first|;
      EventsTail(roomId, r, acts, allowed, n, first);
      CutUnfolds(roomId, r, acts, allowed, n, |first|);
      StepCounters(roomId, r, acts[0], allowed);
      SeenAfterFirst(joined, first, later[..m], Counter(r1));
      SeenAtCut(roomId, r1, acts[1..], allowed, m, if first == [] then joined else Counter(r1), cut[1..]);
    }
  }

  lemma {:induction false} SeenAfterFirst(joined: nat, first: seq<Event>, later: seq<Event>, counter: nat)
    requires |first| <= 1 && joined <= counter
    requires forall i | 0 <= i < |first| :: first[i].roomCounter == counter
    ensures Seen(joined, first + later) == Seen(if first == [] then joined else counter, later)
    decreases |later|
  {
    if later == [] {
      assert first + later == first;
      if first != [] {
        assert first[..0] == [] && Seen(joined, first[..0]) == joined;
      }
    } else {
      var front := later[..|later| - 1];
      assert (first + later)[..|first + later| - 1] == first + front;
      SeenAfterFirst(joined, first, front, counter);
    }
  }

  /**
    The part of a run that a client with n events heard. It was told its room's counter after the
    first `told` operations and was sent nothing before.
   */
  ghost function Heard(roomId: nat, r: Room, acts: seq<RoomAct>, told: nat, allowed: set<string>, n: nat): seq<RoomAct>
    requires told <= |acts|
  {
    acts[..told] + Cut(roomId, RoomAfter(r, acts[..told]), acts[told..], allowed, n)
  }

  /** What the client has in hand when it resumes: its first n events, and the highest counter it saw. */
  ghost predicate CanResume(roomId: nat, r: Room, acts: seq<RoomAct>, told: nat, allowed: set<string>, n: nat) {
    && told <= |acts|
    && ClientEvents(Announced(roomId, r, acts[..told]), allowed) == []
    && n <= |ClientEvents(Announced(roomId, r, acts), allowed)|
  }

  ghost function EventsHeard(roomId: nat, r: Room, acts: seq<RoomAct>, allowed: set<string>, n: nat): seq<Event>
    requires n <= |ClientEvents(Announced(roomId, r, acts), allowed)|
  {
    ClientEvents(Announced(roomId, r, acts), allowed)[..n]
  }

  ghost function SeenCounter(roomId: nat, r: Room, acts: seq<RoomAct>, told: nat, allowed: set<string>, n: nat): nat
    requires CanResume(roomId, r, acts, told, allowed, n)
  {
    Seen(Counter(RoomAfter(r, acts[..told])), EventsHeard(roomId, r, acts, allowed, n))
  }

  /** The mirror at the cut, overlaid with the delta of the room as it is after the whole run. */
  ghost function Resumed(roomId: nat, r: Room, acts: seq<RoomAct>, told: nat, allowed: set<string>, n: nat): View
    requires CanResume(roomId, r, acts, told, allowed, n)
  {
    Overlay(MirrorOf(Snapshot(r, allowed), EventsHeard(roomId, r, acts, allowed, n)),
            Delta(RoomAfter(r, acts), SeenCounter(roomId, r, acts, told, allowed, n), allowed))
  }

  lemma HeardFits(roomId: nat, r: Room, acts: seq<RoomAct>, told: nat, allowed: set<string>, n: nat)
    requires CanResume(roomId, r, acts, told, allowed, n)
    ensures var heard := Heard(roomId, r, acts, told, allowed, n);
      && heard <= acts
      && ClientEvents(Announced(roomId, r, heard), allowed) == EventsHeard(roomId, r, acts, allowed, n)
      && SeenCounter(roomId, r, acts, told, allowed, n) == Counter(RoomAfter(r, heard))
  {
    var before, after := acts[..told], acts[told..];
    var r1 := RoomAfter(r, before);
    QuietStart(roomId, r, before, after, acts, allowed);
    var cut := Cut(roomId, r1, after, allowed, n);
    CutFits(roomId, r1, after, allowed, n, cut);
    SeenAtCut(roomId, r1, after, allowed, n, Counter(r1), cut);
    QuietStart(roomId, r, before, cut, Heard(roomId, r, acts, told, allowed, n), allowed);
  }

  /** After the cut the log only grows. */
  lemma SinceCut(r: Room, acts: seq<RoomAct>, heard: seq<RoomAct>)
    requires heard <= acts
    ensures RoomAfter(r, acts) == RoomAfter(RoomAfter(r, heard), acts[|heard|..])
    ensures RoomAfter(r, heard).log <= RoomAfter(r, acts).log
    ensures RoomAfter(r, acts).log
         == RoomAfter(r, heard).log + RoomAfter(r, acts).log[Counter(RoomAfter(r, heard))..]
  {
    ActsConcat(0, r, heard, acts[|heard|..], acts);
    LogOnlyGrows(RoomAfter(r, heard), acts[|heard|..]);
  }

  // ---------------------------------------------------------------- what the client knows then

  /** Overlaying a delta adds the log suffix to what the client was told. */
  lemma OverlayIsTold(m: View, told: Log, log: Log, since: nat, allowed: set<string>)
    requires since <= |log| && Trim(m)
    requires forall c, k | c != STAR ::
      Lookup(m, c, k) == if Allowed(c, allowed) then LastValue(told, c, k) else None
    ensures DropStar(Overlay(m, DeltaOf(Index(log), |log|, since, allowed)))
         == DropStar(SnapshotOf(Index(told + log[since..]), allowed))
  {
    var delta, known := DeltaOf(Index(log), |log|, since, allowed), SnapshotOf(Index(told + log[since..]), allowed);
    forall c, k | c != STAR
      ensures Lookup(Overlay(m, delta), c, k) == Lookup(known, c, k)
    {
      LookupOverlay(m, delta, c, k);
      LookupDelta(log, since, allowed, c, k);
      LookupSnapshot(told + log[since..], allowed, c, k);
      LastValueConcat(told, log[since..], c, k);
    }
    LookupDelta(log, since, allowed, PUBLIC, PUBLIC);
    TrimOverlay(m, delta);
    TrimSnapshot(told + log[since..], allowed);
    SameUpToStar(Overlay(m, delta), known);
  }

  /**
    Over every run: a client that resumes knows what it was told up to the cut, followed by
    everything committed since the cut. The highest counter it saw marks exactly that place.
   */
  lemma ResumeMeaning(roomId: nat, r: Room, acts: seq<RoomAct>, told: nat, allowed: set<string>, n: nat)
    requires CanResume(roomId, r, acts, told, allowed, n)
    ensures var heard, r' := Heard(roomId, r, acts, told, allowed, n), RoomAfter(r, acts);
      var since := SeenCounter(roomId, r, acts, told, allowed, n);
      && since == Counter(RoomAfter(r, heard)) <= Counter(r')
      && DropStar(Resumed(roomId, r, acts, told, allowed, n))
         == DropStar(SnapshotOf(Index(Told(roomId, r, heard) + r'.log[since..]), allowed))
  {
    var heard, r' := Heard(roomId, r, acts, told, allowed, n), RoomAfter(r, acts);
    var m := MirrorAfter(roomId, r, heard, allowed);
    HeardFits(roomId, r, acts, told, allowed, n);
    SinceCut(r, acts, heard);
    MirrorLookup(roomId, r, heard, allowed, PUBLIC, PUBLIC);
    forall c, k | c != STAR
      ensures Lookup(m, c, k) == if Allowed(c, allowed) then LastValue(Told(roomId, r, heard), c, k) else None
    {
      MirrorLookup(roomId, r, heard, allowed, c, k);
    }
    OverlayIsTold(m, Told(roomId, r, heard), r'.log, SeenCounter(roomId, r, acts, told, allowed, n), allowed);
  }

  /** The keys on which a client may be wrong at the cut: astray, or written in a transaction open there. */
  ghost function Doubtful(r: Room, heard: seq<RoomAct>): set<(string, string)> {
    Astray(r, heard) + Touched(Pending(RoomAfter(r, heard)))
  }

  lemma DoubtfulCovers(roomId: nat, r: Room, heard: seq<RoomAct>, c: string, k: string)
    requires (c, k) !in Doubtful(r, heard)
    ensures LastValue(Told(roomId, r, heard), c, k) == LastValue(RoomAfter(r, heard).log, c, k)
  {
    var q := RoomAfter(r, heard);
    AstrayCovers(roomId, r, heard, c, k);
    LaterWins(q.log, Pending(q), c, k);
  }

  /**
    Over every run: resuming gives exactly the room's snapshot if and only if, for each doubtful
    key it may read that was not committed since the cut, the client was told the value committed
    at the cut.
   */
  lemma ResumeIff(roomId: nat, r: Room, acts: seq<RoomAct>, told: nat, allowed: set<string>, n: nat)
    requires CanResume(roomId, r, acts, told, allowed, n)
    ensures var heard, r' := Heard(roomId, r, acts, told, allowed, n), RoomAfter(r, acts);
      var q := RoomAfter(r, heard);
      && q.log <= r'.log
      && (DropStar(Resumed(roomId, r, acts, told, allowed, n)) == DropStar(Snapshot(r', allowed))
          <==> AgreeOn(Doubtful(r, heard) - Touched(r'.log[Counter(q)..]), Told(roomId, r, heard), q.log, allowed))
  {
    var heard, r' := Heard(roomId, r, acts, told, allowed, n), RoomAfter(r, acts);
    var q := RoomAfter(r, heard);
    HeardFits(roomId, r, acts, told, allowed, n);
    SinceCut(r, acts, heard);
    var x, since := Told(roomId, r, heard), r'.log[Counter(q)..];
    ResumeMeaning(roomId, r, acts, told, allowed, n);
    var keys := Doubtful(r, heard) - Touched(since);
    forall c, k
      ensures (c, k) !in keys ==> LastValue(x + since, c, k) == LastValue(r'.log, c, k)
      ensures (c, k) in keys ==>
        LastValue(x + since, c, k) == LastValue(x, c, k) && LastValue(r'.log, c, k) == LastValue(q.log, c, k)
    {
      LaterWins(x, since, c, k);
      LaterWins(q.log, since, c, k);
      if (c, k) !in Doubtful(r, heard) {
        DoubtfulCovers(roomId, r, heard, c, k);
      }
    }
    SameViewIff(keys, x + since, r'.log, allowed);
  }

  // ---------------------------------------------------------------- clients that missed nothing

  /** Without an abort, an open transaction's buffer is committed when the transaction is over. */
  lemma BufferIsCommitted(r: Room, acts: seq<RoomAct>)
    requires Steady(r, acts) && RoomAfter(r, acts).tx.None?
    ensures Full(r) <= RoomAfter(r, acts).log
  {
    var r' := RoomAfter(r, acts);
    SteadyRun(0, r, acts, {});
    assert Full(r') == r'.log;
  }

  /** A client that missed nothing up to the cut knows log and buffer of then, and what was committed since. */
  lemma SteadyResumed(roomId: nat, r: Room, acts: seq<RoomAct>, told: nat, allowed: set<string>, n: nat)
    requires CanResume(roomId, r, acts, told, allowed, n)
    requires Pending(r) == [] && Steady(r, Heard(roomId, r, acts, told, allowed, n))
    ensures var q, r' := RoomAfter(r, Heard(roomId, r, acts, told, allowed, n)), RoomAfter(r, acts);
      && q.log <= r'.log
      && DropStar(Resumed(roomId, r, acts, told, allowed, n))
         == DropStar(SnapshotOf(Index(q.log + Pending(q) + r'.log[Counter(q)..]), allowed))
  {
    var heard := Heard(roomId, r, acts, told, allowed, n);
    HeardFits(roomId, r, acts, told, allowed, n);
    SinceCut(r, acts, heard);
    ResumeMeaning(roomId, r, acts, told, allowed, n);
    SteadyRun(roomId, r, heard, {});
    assert Full(r) == r.log;
  }

  /**
    A client that joined with nothing buffered and missed nothing up to the cut: resuming gives
    the room's snapshot if and only if the writes it received early, from a transaction open at
    the cut, were committed or written again since, or repeat committed values. So it always
    does if no transaction was open at the cut, or if it was not aborted and is over.
   */
  lemma SteadyResumeIff(roomId: nat, r: Room, acts: seq<RoomAct>, told: nat, allowed: set<string>, n: nat)
    requires CanResume(roomId, r, acts, told, allowed, n)
    requires Pending(r) == [] && Steady(r, Heard(roomId, r, acts, told, allowed, n))
    ensures var heard, r' := Heard(roomId, r, acts, told, allowed, n), RoomAfter(r, acts);
      var q := RoomAfter(r, heard);
      var resumes := DropStar(Resumed(roomId, r, acts, told, allowed, n)) == DropStar(Snapshot(r', allowed));
      && q.log <= r'.log
      && (resumes <==> Unnoticed(q.log, Pending(q), r'.log[Counter(q)..], allowed))
      && (Pending(q) == [] ==> resumes)
      && (Steady(q, acts[|heard|..]) && r'.tx.None? ==> resumes)
  {
    var heard, r' := Heard(roomId, r, acts, told, allowed, n), RoomAfter(r, acts);
    var q := RoomAfter(r, heard);
    SteadyResumed(roomId, r, acts, told, allowed, n);
    HeardFits(roomId, r, acts, told, allowed, n);
    SinceCut(r, acts, heard);
    var since := r'.log[Counter(q)..];
    UnnoticedIff(q.log, Pending(q), since, allowed);
    if Steady(q, acts[|heard|..]) && r'.tx.None? {
      BufferIsCommitted(q, acts[|heard|..]);
      PrefixIsTouched(Pending(q), since, q.log);
    }
  }

  lemma PrefixIsTouched(pending: Log, since: Log, log: Log)
    requires log + pending <= log + since
    ensures forall i | 0 <= i < |pending| :: (pending[i].container, pending[i].key) in Touched(since)
  {
    forall i | 0 <= i < |pending|
      ensures (pending[i].container, pending[i].key) in Touched(since)
    {
      assert (log + pending)[|log| + i] == pending[i] && (log + since)[|log| + i] == since[i];
      assert since[i] in since;
    }
  }

  /** With the transaction still open the claim does fail: one buffered SET, received, then cut off. */
  lemma ResumeFailsInsideTransaction(roomId: nat, c: string, k: string, v: Value, allowed: set<string>)
    requires InView(c, allowed)
    ensures var acts := Opening(c, k, v);
      && CanResume(roomId, FRESH_ROOM, acts, 0, allowed, 1)
      && Steady(FRESH_ROOM, acts)
      && DropStar(Resumed(roomId, FRESH_ROOM, acts, 0, allowed, 1))
         != DropStar(Snapshot(RoomAfter(FRESH_ROOM, acts), allowed))
  {
    var acts, q := Opening(c, k, v), Opened(c, k, v);
    OpeningRun(c, k, v);
    OpeningEvents(roomId, c, k, v, allowed);
    assert acts[..0] == [] && acts[0..] == acts && [] + acts == acts;
    FirstWriteIsNoticed(c, k, v, allowed);
    SteadyResumeIff(roomId, FRESH_ROOM, acts, 0, allowed, 1);
    assert q.log[Counter(q)..] == [];
  }

  lemma OpeningEvents(roomId: nat, c: string, k: string, v: Value, allowed: set<string>)
    requires InView(c, allowed)
    ensures var acts := Opening(c, k, v);
      && |ClientEvents(Announced(roomId, FRESH_ROOM, acts), allowed)| == 1
      && Cut(roomId, FRESH_ROOM, acts, allowed, 1) == acts
  {
    var acts, r1 := Opening(c, k, v), Room([], Some([]));
    var set1 := acts[1];
    assert acts[1..] == [set1] && Apply(FRESH_ROOM, Begin).0 == r1;
    OneEvent(roomId, r1, set1, allowed);
    var none := StepUpdates(roomId, FRESH_ROOM, acts[0]);
    assert none == [] && ClientEvents(none, allowed) == [];
    EventsUnfold(roomId, FRESH_ROOM, acts, [set1], allowed);
    CutUnfolds(roomId, FRESH_ROOM, acts, allowed, 1, 0);
  }

  /** A SET that the client may read is one event for it. */
  lemma OneEvent(roomId: nat, r: Room, act: RoomAct, allowed: set<string>)
    requires act.op.Set? && !act.skipped && InView(act.op.container, allowed)
    ensures |ClientEvents(StepUpdates(roomId, r, act), allowed)| == 1
    ensures |ClientEvents(Announced(roomId, r, [act]), allowed)| == 1
    ensures Cut(roomId, r, [act], allowed, 1) == [act]
  {
    var us, acts := StepUpdates(roomId, r, act), [act];
    assert acts[1..] == [];
    OneUpdate(us[0], allowed);
    assert us == [us[0]];
    EventsUnfold(roomId, r, acts, [], allowed);
    assert ClientEvents([], allowed) == [];
    CutUnfolds(roomId, r, acts, allowed, 1, 1);
  }

  /** One SET withheld from a client. */
  lemma MissedSet(roomId: nat, c: string, k: string, v: Value)
    ensures var acts, r' := [RoomAct(Set(c, k, v), true)], Room([Write(c, k, v)], None);
      && RoomAfter(FRESH_ROOM, acts) == r' && Announced(roomId, FRESH_ROOM, acts) == []
      && Astray(FRESH_ROOM, acts) == {(c, k)}
  {
    var acts, r' := [RoomAct(Set(c, k, v), true)], Room([Write(c, k, v)], None);
    assert acts[1..] == [] && [] + [Write(c, k, v)] == r'.log;
    assert Apply(FRESH_ROOM, acts[0].op).0 == r';
    assert RoomAfter(r', []) == r' && Announced(roomId, r', []) == [] && Touched([]) == {};
    assert AstrayFrom(AstrayStep({}, FRESH_ROOM, acts[0]), r', []) == {(c, k)};
  }

  lemma NewerCounterLoses(roomId: nat, c: string, k: string, v: Value, allowed: set<string>)
    requires InView(c, allowed)
    ensures var acts := [RoomAct(Set(c, k, v), true)];
      && CanResume(roomId, FRESH_ROOM, acts, 1, allowed, 0)
      && DropStar(Resumed(roomId, FRESH_ROOM, acts, 1, allowed, 0))
         != DropStar(Snapshot(RoomAfter(FRESH_ROOM, acts), allowed))
  {
    var acts, w := [RoomAct(Set(c, k, v), true)], Write(c, k, v);
    MissedSet(roomId, c, k, v);
    assert acts[..1] == acts && acts + [] == acts && acts[1..] == [];
    assert Heard(roomId, FRESH_ROOM, acts, 1, allowed, 0) == acts;
    ResumeIff(roomId, FRESH_ROOM, acts, 1, allowed, 0);
    OneWrite(w);
    assert [w][1..] == [] && Touched([]) == {} && Told(roomId, FRESH_ROOM, acts) == [];
    assert LastValue([], c, k) == None && (c, k) in Doubtful(FRESH_ROOM, acts);
  }

  lemma OlderCounterBrings(roomId: nat, c: string, k: string, v: Value, allowed: set<string>)
    requires InView(c, allowed)
    ensures var acts := [RoomAct(Set(c, k, v), true)];
      && CanResume(roomId, FRESH_ROOM, acts, 0, allowed, 0)
      && DropStar(Resumed(roomId, FRESH_ROOM, acts, 0, allowed, 0))
         == DropStar(Snapshot(RoomAfter(FRESH_ROOM, acts), allowed))
  {
    var acts := [RoomAct(Set(c, k, v), true)];
    MissedSet(roomId, c, k, v);
    assert acts[..0] == [] && Announced(roomId, FRESH_ROOM, []) == [];
    assert Heard(roomId, FRESH_ROOM, acts, 0, allowed, 0) == [] && Steady(FRESH_ROOM, []);
    SteadyResumeIff(roomId, FRESH_ROOM, acts, 0, allowed, 0);
  }

  /**
    The handshake reads the snapshot first and the counter later. A SET in between is lost to a
    client that was told the newer counter, even after it resumes; with the older counter the
    delta would bring it.
   */
  lemma CounterReadLateLosesWrites(roomId: nat, c: string, k: string, v: Value, allowed: set<string>)
    requires InView(c, allowed)
    ensures var acts := [RoomAct(Set(c, k, v), true)];
      var now := DropStar(Snapshot(RoomAfter(FRESH_ROOM, acts), allowed));
      && CanResume(roomId, FRESH_ROOM, acts, 0, allowed, 0) && CanResume(roomId, FRESH_ROOM, acts, 1, allowed, 0)
      && DropStar(Resumed(roomId, FRESH_ROOM, acts, 1, allowed, 0)) != now
      && DropStar(Resumed(roomId, FRESH_ROOM, acts, 0, allowed, 0)) == now
  {
    NewerCounterLoses(roomId, c, k, v, allowed);
    OlderCounterBrings(roomId, c, k, v, allowed);
  }
}
