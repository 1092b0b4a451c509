/** What each operation of a room accepts and does, and how a room's reads fit together. */
module RoomLaws {
  import opened Data
  import opened NestedMaps
  import opened WriteLog
  import opened RoomModel

  // ---------------------------------------------------------------- operations

  /** Which operations are accepted, and what a refused one answers; it changes nothing. */
  lemma AcceptedIff(r: Room, op: RoomOp)
    ensures Apply(r, op).1.Ok?
       <==> match op
            case Begin => r.tx.None?
            case End => r.tx.Some?
            case Abort => true
            case Set(_, _, _) => true
            case Del(c, _) => r.tx.Some? || c in Index(r.log)
    ensures Apply(r, op).1.Err? ==>
      && Apply(r, op).0 == r
      && Apply(r, op).1.error == if op.Begin? then TxAlreadyOpen else if op.End? then TxNotOpen else ContainerNotFound
  {
    if op.Del? {
      IndexContainers(r.log, op.container);
    }
  }

  /** An accepted transaction command leaves exactly this. */
  lemma TransactionEffect(r: Room, op: RoomOp)
    requires !op.IsWrite() && Apply(r, op).1.Ok?
    ensures Apply(r, op).0
         == if op.Begin? then Room(r.log, Some([])) else if op.End? then Room(r.log + Pending(r), None)
            else Room(r.log, None)
  {
  }

  /** What an accepted SET or DEL does: one write more, to this key, buffered if a transaction is open. */
  ghost predicate WriteDone(r: Room, r': Room, c: string, k: string, v: Value) {
    && (r'.tx.Some? <==> r.tx.Some?) && (r.tx.Some? ==> r'.log == r.log)
    && |Full(r')| == |Full(r)| + 1
    && forall c', k' ::
         LastValue(Full(r'), c', k') == if c' == c && k' == k then Some(v) else LastValue(Full(r), c', k')
  }

  lemma WriteEffect(r: Room, op: RoomOp)
    requires op.IsWrite() && Apply(r, op).1.Ok?
    ensures WriteDone(r, Apply(r, op).0, op.container, op.key, if op.Set? then op.value else Null)
  {
    FullGrows(r, op);
    forall c, k
      ensures LastValue(Full(r) + [WriteOf(op)], c, k)
           == if c == op.container && k == op.key then Some(if op.Set? then op.value else Null)
              else LastValue(Full(r), c, k)
    {
      LastValueAppend(Full(r), WriteOf(op), c, k);
    }
  }

  // ---------------------------------------------------------------- brackets

  /** The accepted openings (true) and closings (false) of transactions during a run, in order. */
  ghost function Brackets(r: Room, ops: seq<RoomOp>): seq<bool>
    decreases ops
  {
    if ops == [] then []
    else
      var (next, res) := Apply(r, ops[0]);
      var later := Brackets(next, ops[1..]);
      if ops[0].Begin? && res.Ok? then [true] + later
      else if (ops[0].End? && res.Ok?) || (ops[0].Abort? && r.tx.Some?) then [false] + later
      else later
  }

  /** Every transaction is closed before the next is opened, by exactly one TX.END or TX.ABORT. */
  lemma {:induction false} BracketsAlternate(r: Room, ops: seq<RoomOp>)
    ensures var marks := Brackets(r, ops);
      && (forall i | 0 <= i < |marks| :: marks[i] == ((i % 2 == 0) == r.tx.None?))
      && (Run(r, ops).tx.Some? <==> (r.tx.Some? <==> |marks| % 2 == 0))
    decreases ops
  {
    if ops != [] {
      BracketsAlternate(Apply(r, ops[0]).0, ops[1..]);
    }
  }

  // ---------------------------------------------------------------- reads

  /** GET answers exactly what is stored, and tells the three reasons for having nothing apart. */
  lemma FragmentIsStored(r: Room, c: string, k: string, v: Value, n: nat)
    ensures Fragment(r, c, k) == Ok((v, n)) <==> v != Null && Lookup(Index(r.log), c, k) == Some(FragmentEntry(v, n))
    ensures Fragment(r, c, k) == Err(FragmentTombstone)
       <==> Lookup(Index(r.log), c, k).Some? && Lookup(Index(r.log), c, k).value.value == Null
    ensures Fragment(r, c, k) == Err(FragmentNotFound) <==> c in Index(r.log) && k !in Index(r.log)[c]
    ensures Fragment(r, c, k) == Err(ContainerNotFound) <==> c !in Index(r.log)
  {
    IndexContainers(r.log, c);
    LookupIndex(r.log, c, k);
  }

  /**
    GET agrees with the two views of a client that may read the container: the value is in the
    snapshot, and in a delta exactly when the version is newer.
   */
  lemma FragmentInViews(r: Room, c: string, k: string, since: nat, allowed: set<string>)
    requires Fragment(r, c, k).Ok? && (c == "public" || c in allowed)
    ensures var (v, n) := Fragment(r, c, k).value;
      && 1 <= n <= Counter(r)
      && Lookup(Snapshot(r, allowed), c, k) == Some(v)
      && Lookup(Delta(r, since, allowed), c, k) == if since < n then Some(v) else None
  {
    LookupSnapshot(r.log, allowed, c, k);
    LookupDelta(r.log, since, allowed, c, k);
    LastValueSuffix(r.log, since, c, k);
  }

  /** Both views show the public container and the client's own, and nothing else. */
  lemma ReadableContainers(r: Room, since: nat, allowed: set<string>, c: string, k: string)
    ensures var mine := c == "public" || c in allowed;
      && Lookup(Snapshot(r, allowed), c, k) == (if mine then LastValue(r.log, c, k) else None)
      && Lookup(Delta(r, since, allowed), c, k) == (if mine then LastValue(Suffix(r.log, since), c, k) else None)
  {
    LookupSnapshot(r.log, allowed, c, k);
    LookupDelta(r.log, since, allowed, c, k);
  }

  /** What ROOM.INFO counts: containers ever written, and stored keys, of which each container has one at least. */
  lemma InfoCounts(roomId: nat, r: Room)
    ensures var info := InfoOf(roomId, r);
      && info.roomId == roomId && info.roomCounter == |r.log|
      && info.containerCount == |set w | w in r.log :: w.container|
      && info.fragmentCount == |Stored(Index(r.log), Index(r.log).Keys)|
      && info.containerCount <= info.fragmentCount <= info.roomCounter
  {
    var named := set w | w in r.log :: w.container;
    forall c
      ensures c in Index(r.log) <==> c in named
    {
      IndexContainers(r.log, c);
      if c in Index(r.log) {
        var i :| 0 <= i < |r.log| && r.log[i].container == c;
        assert r.log[i] in r.log;
      }
    }
    assert Index(r.log).Keys == named;
    Accounting(r.log);
  }
}
