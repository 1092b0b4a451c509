/**
  One room as its committed-write log plus the writes of the open transaction, and what
  holds over every run of SET, DEL, TX.BEGIN, TX.END and TX.ABORT.
 */
module RoomModel {
  import opened Data
  import opened NestedMaps
  import opened WriteLog

  datatype Room = Room(log: Log, tx: Option<Log>)

  datatype RoomOp =
    | Set(container: string, key: string, value: Value)
    | Del(container: string, key: string)
    | Begin
    | End
    | Abort
  {
    predicate IsWrite() { Set? || Del? }
  }

  const FRESH_ROOM := Room([], None)

  function WriteOf(op: RoomOp): Write
    requires op.IsWrite()
  {
    Write(op.container, op.key, if op.Set? then op.value else Null)
  }

  ghost predicate HasContainer(log: Log, c: string) {
    exists i :: 0 <= i < |log| && log[i].container == c
  }

  ghost function Apply(r: Room, op: RoomOp): (Room, Result<(), StateError>) {
    match op
    case Begin =>
      if r.tx.Some? then (r, Err(TxAlreadyOpen)) else (r.(tx := Some([])), Ok(()))
    case End =>
      if r.tx.None? then (r, Err(TxNotOpen)) else (Room(r.log + r.tx.value, None), Ok(()))
    case Abort =>
      (r.(tx := None), Ok(()))
    case _ =>
      if r.tx.Some? then (r.(tx := Some(r.tx.value + [WriteOf(op)])), Ok(()))
      else if op.Del? && !HasContainer(r.log, op.container) then (r, Err(ContainerNotFound))
      else (r.(log := r.log + [WriteOf(op)]), Ok(()))
  }

  ghost function Run(r: Room, ops: seq<RoomOp>): Room
    decreases ops
  {
    if ops == [] then r else Run(Apply(r, ops[0]).0, ops[1..])
  }

  ghost predicate AllOk(r: Room, ops: seq<RoomOp>)
    decreases ops
  {
    ops != [] ==> Apply(r, ops[0]).1.Ok? && AllOk(Apply(r, ops[0]).0, ops[1..])
  }

  function Pending(r: Room): Log {
    if r.tx.Some? then r.tx.value else []
  }

  /** The committed log followed by the open buffer. */
  function Full(r: Room): Log {
    r.log + Pending(r)
  }

  lemma FullGrows(r: Room, op: RoomOp)
    requires op.IsWrite() && Apply(r, op).1.Ok?
    ensures Full(Apply(r, op).0) == Full(r) + [WriteOf(op)]
  {
    if r.tx.Some? {
      assert r.log + (r.tx.value + [WriteOf(op)]) == r.log + r.tx.value + [WriteOf(op)];
    } else {
      assert r.log + [] == r.log;
    }
  }

  function Counter(r: Room): nat { |r.log| }

  function Snapshot(r: Room, allowed: set<string>): View {
    SnapshotOf(Index(r.log), allowed)
  }

  function Delta(r: Room, since: nat, allowed: set<string>): View {
    DeltaOf(Index(r.log), |r.log|, since, allowed)
  }

  ghost function Fragment(r: Room, c: string, k: string): Result<(Value, nat), StateError> {
    var p := LastPos(r.log, c, k);
    if !HasContainer(r.log, c) then Err(ContainerNotFound)
    else if p == 0 then Err(FragmentNotFound)
    else if r.log[p - 1].value == Null then Err(FragmentTombstone)
    else Ok((r.log[p - 1].value, p))
  }

  datatype RoomInfo = RoomInfo(roomId: nat, roomCounter: nat, containerCount: nat, fragmentCount: nat)

  /** The counts of a room: its containers, and the keys ever written. */
  ghost function InfoOf(roomId: nat, r: Room): RoomInfo {
    RoomInfo(roomId, Counter(r), |Index(r.log)|, |Touched(r.log)|)
  }

  ghost predicate AllWrites(ops: seq<RoomOp>) {
    forall i | 0 <= i < |ops| :: ops[i].IsWrite()
  }

  ghost function WritesOf(ops: seq<RoomOp>): Log
    requires AllWrites(ops)
  {
    seq(|ops|, i requires 0 <= i < |ops| => WriteOf(ops[i]))
  }

  lemma {:induction false} RunConcat(r: Room, a: seq<RoomOp>, b: seq<RoomOp>)
    ensures Run(r, a + b) == Run(Run(r, a), b)
    decreases a
  {
    if a == [] {
      assert a + b == b;
    } else {
      assert (a + b)[1..] == a[1..] + b;
      RunConcat(Apply(r, a[0]).0, a[1..], b);
    }
  }

  lemma {:induction false} LogGrows(r: Room, ops: seq<RoomOp>)
    ensures r.log <= Run(r, ops).log
    decreases ops
  {
    if ops != [] {
      LogGrows(Apply(r, ops[0]).0, ops[1..]);
    }
  }

  // ---------------------------------------------------------------- delta

  /** A snapshot overlaid with the delta since its counter is the later snapshot. */
  lemma CatchUp(r: Room, ops: seq<RoomOp>, since: nat, allowed: set<string>)
    requires since <= Counter(r)
    ensures Overlay(Snapshot(r, allowed), Delta(Run(r, ops), since, allowed)) == Snapshot(Run(r, ops), allowed)
  {
    var r' := Run(r, ops);
    var delta := Delta(r', since, allowed);
    LogGrows(r, ops);
    forall c, k
      ensures Lookup(Overlay(Snapshot(r, allowed), delta), c, k) == Lookup(Snapshot(r', allowed), c, k)
    {
      LookupOverlay(Snapshot(r, allowed), delta, c, k);
      LookupSnapshot(r.log, allowed, c, k);
      LookupSnapshot(r'.log, allowed, c, k);
      LookupDelta(r'.log, since, allowed, c, k);
      assert r.log == r'.log[..|r.log|];
      LastValueConcat(r.log, r'.log[since..], c, k);
      LastValueStutter(r'.log, |r.log|, since, c, k);
    }
    TrimSnapshot(r.log, allowed);
    TrimSnapshot(r'.log, allowed);
    LookupDelta(r'.log, since, allowed, PUBLIC, PUBLIC);
    TrimOverlay(Snapshot(r, allowed), delta);
    SameLookups(Overlay(Snapshot(r, allowed), delta), Snapshot(r', allowed));
  }

  /** Two deltas taken one after the other compose to the one delta over both stretches. */
  lemma DeltasCompose(r: Room, ops: seq<RoomOp>, since: nat, allowed: set<string>)
    requires since <= Counter(r)
    ensures Overlay(Delta(r, since, allowed), Delta(Run(r, ops), Counter(r), allowed))
         == Delta(Run(r, ops), since, allowed)
  {
    var r' := Run(r, ops);
    var first, second, whole := Delta(r, since, allowed), Delta(r', |r.log|, allowed), Delta(r', since, allowed);
    LogGrows(r, ops);
    forall c, k
      ensures Lookup(Overlay(first, second), c, k) == Lookup(whole, c, k)
    {
      LookupOverlay(first, second, c, k);
      LookupDelta(r.log, since, allowed, c, k);
      LookupDelta(r'.log, |r.log|, allowed, c, k);
      LookupDelta(r'.log, since, allowed, c, k);
      assert r'.log[since..] == r.log[since..] + r'.log[|r.log|..];
      LastValueConcat(r.log[since..], r'.log[|r.log|..], c, k);
    }
    LookupDelta(r.log, since, allowed, PUBLIC, PUBLIC);
    LookupDelta(r'.log, |r.log|, allowed, PUBLIC, PUBLIC);
    LookupDelta(r'.log, since, allowed, PUBLIC, PUBLIC);
    TrimOverlay(first, second);
    SameLookups(Overlay(first, second), whole);
  }

  /** A later starting point gives a part of the delta. */
  lemma DeltasShrink(r: Room, a: nat, b: nat, allowed: set<string>)
    requires a <= b
    ensures SubMap(Delta(r, b, allowed), Delta(r, a, allowed))
  {
  }

  // ---------------------------------------------------------------- transactions

  lemma {:induction false} BufferedWrites(r: Room, ops: seq<RoomOp>)
    requires r.tx.Some?
    requires AllWrites(ops)
    ensures Run(r, ops) == r.(tx := Some(r.tx.value + WritesOf(ops)))
    ensures AllOk(r, ops)
    decreases ops
  {
    if ops != [] {
      var r1 := Apply(r, ops[0]).0;
      BufferedWrites(r1, ops[1..]);
      assert WritesOf(ops) == [WriteOf(ops[0])] + WritesOf(ops[1..]);
      assert r.tx.value + [WriteOf(ops[0])] + WritesOf(ops[1..]) == r.tx.value + WritesOf(ops);
    } else {
      assert r.tx.value + WritesOf(ops) == r.tx.value;
    }
  }

  ghost function Transaction(r: Room, ops: seq<RoomOp>, last: RoomOp): Room {
    Run(r, [Begin] + ops + [last])
  }

  lemma TransactionSteps(r: Room, ops: seq<RoomOp>, last: RoomOp)
    requires r.tx.None?
    requires AllWrites(ops)
    ensures Transaction(r, ops, last) == Apply(Room(r.log, Some(WritesOf(ops))), last).0
  {
    RunConcat(r, [Begin] + ops, [last]);
    RunConcat(r, [Begin], ops);
    var r1 := Room(r.log, Some([]));
    assert Run(r, [Begin]) == Run(r1, []);
    BufferedWrites(r1, ops);
    assert [] + WritesOf(ops) == WritesOf(ops);
    var r2 := Run(r1, ops);
    assert Run(r2, [last]) == Run(Apply(r2, last).0, []);
  }

  lemma IndexAppend(a: Log, b: Log, c: string, k: string)
    ensures var p := LastPos(b, c, k);
      Lookup(Index(a + b), c, k)
      == if p == 0 then Lookup(Index(a), c, k) else Some(FragmentEntry(b[p - 1].value, |a| + p))
  {
    var p := LastPos(b, c, k);
    LookupIndex(a, c, k);
    LookupIndex(a + b, c, k);
    LastPosConcat(a, b, c, k);
    if p != 0 {
      assert (a + b)[|a| + p - 1] == b[p - 1];
    } else {
      var q := LastPos(a, c, k);
      assert q != 0 ==> (a + b)[q - 1] == a[q - 1];
    }
  }

  /**
    A committed transaction of n operations raises the counter by n; each key it touches gets
    the base counter plus the index of its last operation, every other key keeps its entry.
   */
  lemma CommitMeaning(r: Room, ops: seq<RoomOp>, c: string, k: string)
    requires r.tx.None?
    requires AllWrites(ops)
    ensures var r' := Transaction(r, ops, End);
      && r'.tx.None?
      && Counter(r') == Counter(r) + |ops|
      && var p := LastPos(WritesOf(ops), c, k);
         Lookup(Index(r'.log), c, k)
         == if p == 0 then Lookup(Index(r.log), c, k)
            else Some(FragmentEntry(WriteOf(ops[p - 1]).value, Counter(r) + p))
  {
    TransactionSteps(r, ops, End);
    IndexAppend(r.log, WritesOf(ops), c, k);
  }

  /** Aborting restores the room exactly. */
  lemma AbortRestores(r: Room, ops: seq<RoomOp>)
    requires r.tx.None?
    requires AllWrites(ops)
    ensures Transaction(r, ops, Abort) == r
  {
    TransactionSteps(r, ops, Abort);
  }

  /** Until TX.END, no operation changes what any reader of the room sees. */
  lemma {:induction false} Isolation(roomId: nat, r: Room, ops: seq<RoomOp>, c: string, k: string, since: nat,
                                     allowed: set<string>)
    requires r.tx.Some?
    requires End !in ops && Abort !in ops
    ensures var r' := Run(r, ops);
      && r'.tx.Some?
      && r'.log == r.log
      && Fragment(r', c, k) == Fragment(r, c, k)
      && Counter(r') == Counter(r)
      && InfoOf(roomId, r') == InfoOf(roomId, r)
      && Snapshot(r', allowed) == Snapshot(r, allowed)
      && Delta(r', since, allowed) == Delta(r, since, allowed)
    decreases ops
  {
    if ops != [] {
      Isolation(roomId, Apply(r, ops[0]).0, ops[1..], c, k, since, allowed);
    }
  }

  /** Each DEL finds its container, written before the run or by an earlier operation of it. */
  ghost predicate DelsFindContainers(log: Log, ops: seq<RoomOp>)
    requires AllWrites(ops)
  {
    forall i | 0 <= i < |ops| && ops[i].Del? :: HasContainer(log + WritesOf(ops)[..i], ops[i].container)
  }

  lemma {:induction false} DirectWrites(r: Room, ops: seq<RoomOp>)
    requires r.tx.None?
    requires AllWrites(ops)
    ensures Run(r, ops).tx.None?
    ensures |Run(r, ops).log| <= |r.log| + |ops|
    ensures DelsFindContainers(r.log, ops) ==> Run(r, ops).log == r.log + WritesOf(ops) && AllOk(r, ops)
    ensures !DelsFindContainers(r.log, ops) ==> |Run(r, ops).log| < |r.log| + |ops|
    decreases ops
  {
    if ops == [] {
      assert r.log + WritesOf(ops) == r.log;
    } else {
      var r1 := Apply(r, ops[0]).0;
      DirectWrites(r1, ops[1..]);
      assert WritesOf(ops) == [WriteOf(ops[0])] + WritesOf(ops[1..]);
      assert r.log + WritesOf(ops)[..0] == r.log;
      if Apply(r, ops[0]).1.Ok? {
        assert r1.log + WritesOf(ops[1..]) == r.log + WritesOf(ops);
        DelsTail(r.log, ops);
      }
    }
  }

  lemma DelsTail(log: Log, ops: seq<RoomOp>)
    requires ops != [] && AllWrites(ops)
    requires ops[0].Del? ==> HasContainer(log, ops[0].container)
    ensures DelsFindContainers(log, ops) <==> DelsFindContainers(log + [WriteOf(ops[0])], ops[1..])
  {
    forall i | 0 <= i < |ops| - 1
      ensures log + [WriteOf(ops[0])] + WritesOf(ops[1..])[..i] == log + WritesOf(ops)[..i + 1]
    {
    }
    assert log + WritesOf(ops)[..0] == log;
    if DelsFindContainers(log + [WriteOf(ops[0])], ops[1..]) {
      forall i | 0 <= i < |ops| && ops[i].Del?
        ensures HasContainer(log + WritesOf(ops)[..i], ops[i].container)
      {
        if i > 0 {
          assert ops[1..][i - 1] == ops[i];
        }
      }
    }
  }

  /**
    Committing a transaction and running its operations directly give the same room exactly
    when every DEL finds its container: outside a transaction the others are refused.
   */
  lemma TransactionIsDirectIff(r: Room, ops: seq<RoomOp>)
    requires r.tx.None?
    requires AllWrites(ops)
    ensures Transaction(r, ops, End) == Run(r, ops) <==> DelsFindContainers(r.log, ops)
  {
    TransactionSteps(r, ops, End);
    DirectWrites(r, ops);
  }
}
