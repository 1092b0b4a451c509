/**
  The committed-write log of a room, what the store keeps of it (an index of last writes),
  and the two views the server computes from that index.
 */
module WriteLog {
  import opened Data
  import opened NestedMaps

  type Log = seq<Write>
  type View = Nested<Value>
  type Containers = Nested<FragmentEntry>

  /** The 1-based position of the last write to a key, 0 when there is none. */
  function LastPos(log: Log, c: string, k: string): (p: nat)
    ensures p <= |log|
  {
    if log == [] then 0
    else
      var w := log[|log| - 1];
      if w.container == c && w.key == k then |log| else LastPos(log[..|log| - 1], c, k)
  }

  /** The value of the last write to a key. */
  function LastValue(log: Log, c: string, k: string): Option<Value> {
    var p := LastPos(log, c, k);
    if p == 0 then None else Some(log[p - 1].value)
  }

  /** Applying writes in order to a view. */
  function Replay(base: View, log: Log): View {
    if log == [] then base
    else
      var w := log[|log| - 1];
      Put(Replay(base, log[..|log| - 1]), w.container, w.key, w.value)
  }

  /** What the store keeps: for each key its last value and that write's position. */
  function Index(log: Log): Containers {
    if log == [] then map[]
    else
      var w := log[|log| - 1];
      Put(Index(log[..|log| - 1]), w.container, w.key, FragmentEntry(w.value, |log|))
  }

  /** The writes that a client with these containers may see. */
  function Visible(log: Log, allowed: set<string>): Log {
    if log == [] then []
    else
      var w := log[|log| - 1];
      Visible(log[..|log| - 1], allowed) + (if Allowed(w.container, allowed) then [w] else [])
  }

  /** The log from position `since` on; empty when `since` is past the end. */
  function Suffix(log: Log, since: nat): Log {
    if since <= |log| then log[since..] else []
  }

  function Values(entries: map<string, FragmentEntry>): map<string, Value> {
    map k | k in entries :: entries[k].value
  }

  function NewerValues(entries: map<string, FragmentEntry>, since: nat): map<string, Value> {
    map k | k in entries && entries[k].keyVersion > since :: entries[k].value
  }

  /** The containers of `room_snapshot`, as computed from the store. */
  function SnapshotOf(containers: Containers, allowed: set<string>): View {
    map c | c in containers && Allowed(c, allowed) :: Values(containers[c])
  }

  /** What the loop of `room_delta` collects, without its early return. */
  function NewerThan(containers: Containers, since: nat, allowed: set<string>): View {
    map c | c in containers && Allowed(c, allowed) && NewerValues(containers[c], since) != map[]
      :: NewerValues(containers[c], since)
  }

  /** The containers of `room_delta`, as computed from the store. */
  function DeltaOf(containers: Containers, counter: nat, since: nat, allowed: set<string>): View {
    if since >= counter then map[] else NewerThan(containers, since, allowed)
  }

  // ---------------------------------------------------------------- last writes

  ghost predicate IsLastPos(log: Log, c: string, k: string, p: nat) {
    && p <= |log|
    && (p != 0 ==> log[p - 1].container == c && log[p - 1].key == k)
    && forall i | p <= i < |log| :: log[i].container != c || log[i].key != k
  }

  lemma {:induction false} LastPosMeaning(log: Log, c: string, k: string)
    ensures IsLastPos(log, c, k, LastPos(log, c, k))
  {
    if log != [] {
      LastPosMeaning(log[..|log| - 1], c, k);
    }
  }

  lemma LastPosUnique(log: Log, c: string, k: string, p: nat)
    requires IsLastPos(log, c, k, p)
    ensures LastPos(log, c, k) == p
  {
    LastPosMeaning(log, c, k);
  }

  lemma LastPosConcat(a: Log, b: Log, c: string, k: string)
    ensures LastPos(a + b, c, k)
         == if LastPos(b, c, k) != 0 then |a| + LastPos(b, c, k) else LastPos(a, c, k)
  {
    LastPosMeaning(a, c, k);
    LastPosMeaning(b, c, k);
    PositionsConcat(a, b, c, k, LastPos(a, c, k), LastPos(b, c, k));
    LastPosUnique(a + b, c, k, if LastPos(b, c, k) != 0 then |a| + LastPos(b, c, k) else LastPos(a, c, k));
  }

  lemma PositionsConcat(a: Log, b: Log, c: string, k: string, p: nat, q: nat)
    requires IsLastPos(a, c, k, p) && IsLastPos(b, c, k, q)
    ensures IsLastPos(a + b, c, k, if q != 0 then |a| + q else p)
  {
  }

  lemma LastValueConcat(a: Log, b: Log, c: string, k: string)
    ensures LastValue(a + b, c, k)
         == if LastValue(b, c, k).Some? then LastValue(b, c, k) else LastValue(a, c, k)
  {
    LastPosConcat(a, b, c, k);
  }

  lemma LastValueAppend(log: Log, w: Write, c: string, k: string)
    ensures LastValue(log + [w], c, k) == if w.container == c && w.key == k then Some(w.value) else LastValue(log, c, k)
  {
    LastPosConcat(log, [w], c, k);
    LastPosUnique([w], c, k, if w.container == c && w.key == k then 1 else 0);
  }

  lemma {:induction false} LastValueVisible(log: Log, allowed: set<string>, c: string, k: string)
    ensures LastValue(Visible(log, allowed), c, k)
         == if Allowed(c, allowed) then LastValue(log, c, k) else None
  {
    if log != [] {
      var front, w := log[..|log| - 1], log[|log| - 1];
      LastValueVisible(front, allowed, c, k);
      LastValueAppend(Visible(front, allowed), w, c, k);
      LastValueAppend(front, w, c, k);
      assert log == front + [w];
      assert Visible(front, allowed) + [] == Visible(front, allowed);
    }
  }

  // ---------------------------------------------------------------- replay and index

  lemma {:induction false} LookupReplay(base: View, log: Log, c: string, k: string)
    ensures Lookup(Replay(base, log), c, k)
         == if LastValue(log, c, k).Some? then LastValue(log, c, k) else Lookup(base, c, k)
  {
    if log != [] {
      var n := |log| - 1;
      LookupReplay(base, log[..n], c, k);
      LastValueConcat(log[..n], [log[n]], c, k);
      assert log == log[..n] + [log[n]];
    }
  }

  lemma {:induction false} TrimReplay(base: View, log: Log)
    requires Trim(base)
    ensures Trim(Replay(base, log))
  {
    if log != [] {
      var w := log[|log| - 1];
      TrimReplay(base, log[..|log| - 1]);
      assert w.key in Replay(base, log)[w.container];
    }
  }

  /** The store is an index of the log. */
  lemma {:induction false} LookupIndex(log: Log, c: string, k: string)
    ensures var p := LastPos(log, c, k);
      Lookup(Index(log), c, k) == if p == 0 then None else Some(FragmentEntry(log[p - 1].value, p))
  {
    if log != [] {
      var n := |log| - 1;
      LookupIndex(log[..n], c, k);
      LastPosConcat(log[..n], [log[n]], c, k);
      assert log == log[..n] + [log[n]];
    }
  }

  lemma {:induction false} IndexContainers(log: Log, c: string)
    ensures Trim(Index(log))
    ensures c in Index(log) <==> exists i :: 0 <= i < |log| && log[i].container == c
  {
    if log != [] {
      var n := |log| - 1;
      IndexContainers(log[..n], c);
      assert forall i | 0 <= i < n :: log[..n][i] == log[i];
      assert log[n].key in Index(log)[log[n].container];
    }
  }

  lemma LookupSnapshot(log: Log, allowed: set<string>, c: string, k: string)
    ensures Lookup(SnapshotOf(Index(log), allowed), c, k)
         == if Allowed(c, allowed) then LastValue(log, c, k) else None
  {
    LookupIndex(log, c, k);
  }

  lemma TrimSnapshot(log: Log, allowed: set<string>)
    ensures Trim(SnapshotOf(Index(log), allowed))
  {
    forall c | c in SnapshotOf(Index(log), allowed)
      ensures SnapshotOf(Index(log), allowed)[c] != map[]
    {
      IndexContainers(log, c);
      var k :| k in Index(log)[c];
      assert k in Values(Index(log)[c]);
    }
  }

  /** A snapshot is the replay of every visible committed write. */
  lemma SnapshotIsReplay(log: Log, allowed: set<string>)
    ensures SnapshotOf(Index(log), allowed) == Replay(map[], Visible(log, allowed))
  {
    forall c, k
      ensures Lookup(SnapshotOf(Index(log), allowed), c, k) == Lookup(Replay(map[], Visible(log, allowed)), c, k)
    {
      LookupSnapshot(log, allowed, c, k);
      LookupReplay(map[], Visible(log, allowed), c, k);
      LastValueVisible(log, allowed, c, k);
    }
    TrimSnapshot(log, allowed);
    TrimReplay(map[], Visible(log, allowed));
    SameLookups(SnapshotOf(Index(log), allowed), Replay(map[], Visible(log, allowed)));
  }

  lemma LastValueSuffix(log: Log, since: nat, c: string, k: string)
    ensures var p := LastPos(log, c, k);
      LastValue(Suffix(log, since), c, k) == if p > since then Some(log[p - 1].value) else None
  {
    if since <= |log| {
      LastPosMeaning(log, c, k);
      SuffixPos(log, since, c, k, LastPos(log, c, k));
      LastPosUnique(log[since..], c, k, if LastPos(log, c, k) > since then LastPos(log, c, k) - since else 0);
    }
  }

  lemma SuffixPos(log: Log, since: nat, c: string, k: string, p: nat)
    requires since <= |log| && IsLastPos(log, c, k, p)
    ensures IsLastPos(log[since..], c, k, if p > since then p - since else 0)
  {
    assert forall i | 0 <= i < |log| - since :: log[since..][i] == log[since + i];
  }

  lemma LookupNewerStored(m: Containers, since: nat, allowed: set<string>, c: string, k: string)
    ensures var e := Lookup(m, c, k);
      Lookup(NewerThan(m, since, allowed), c, k)
      == if Allowed(c, allowed) && e.Some? && e.value.keyVersion > since then Some(e.value.value) else None
  {
    if c in m {
      var newer := NewerValues(m[c], since);
      assert k in m[c] && m[c][k].keyVersion > since ==> k in newer;
    }
  }

  lemma LookupNewer(log: Log, since: nat, allowed: set<string>, c: string, k: string)
    ensures Lookup(NewerThan(Index(log), since, allowed), c, k)
         == if Allowed(c, allowed) then LastValue(Suffix(log, since), c, k) else None
  {
    LookupIndex(log, c, k);
    LookupNewerStored(Index(log), since, allowed, c, k);
    LastValueSuffix(log, since, c, k);
  }

  /**
    The version test of `room_delta` selects exactly the writes after position `since`:
    the delta is the replay of the visible log suffix. The early return loses nothing.
   */
  lemma DeltaIsSuffixReplay(log: Log, since: nat, allowed: set<string>)
    ensures NewerThan(Index(log), since, allowed) == Replay(map[], Visible(Suffix(log, since), allowed))
    ensures DeltaOf(Index(log), |log|, since, allowed) == NewerThan(Index(log), since, allowed)
  {
    var suffix := Visible(Suffix(log, since), allowed);
    forall c, k
      ensures Lookup(NewerThan(Index(log), since, allowed), c, k) == Lookup(Replay(map[], suffix), c, k)
    {
      LookupNewer(log, since, allowed, c, k);
      LookupReplay(map[], suffix, c, k);
      LastValueVisible(Suffix(log, since), allowed, c, k);
    }
    TrimReplay(map[], suffix);
    SameLookups(NewerThan(Index(log), since, allowed), Replay(map[], suffix));
    if since >= |log| {
      assert Suffix(log, since) == [];
    }
  }

  lemma LookupDelta(log: Log, since: nat, allowed: set<string>, c: string, k: string)
    ensures Lookup(DeltaOf(Index(log), |log|, since, allowed), c, k)
         == if Allowed(c, allowed) then LastValue(Suffix(log, since), c, k) else None
    ensures Trim(DeltaOf(Index(log), |log|, since, allowed))
  {
    DeltaIsSuffixReplay(log, since, allowed);
    LookupNewer(log, since, allowed, c, k);
  }

  // ---------------------------------------------------------------- suffixes

  /** Applying again a stretch that ends the log changes nothing. */
  lemma LastValueStutter(log: Log, q: nat, since: nat, c: string, k: string)
    requires since <= q <= |log|
    ensures LastValue(log[..q] + log[since..], c, k) == LastValue(log, c, k)
  {
    var before, between, after := log[..since], log[since..q], log[q..];
    assert log[..q] == before + between && log[since..] == between + after;
    assert log == before + (between + after);
    LastValueConcat(before + between, between + after, c, k);
    LastValueConcat(before, between, c, k);
    LastValueConcat(before, between + after, c, k);
    LastValueConcat(between, after, c, k);
  }

  // ---------------------------------------------------------------- accounting

  /** The keys that the log writes. */
  ghost function Touched(log: Log): set<(string, string)> {
    set w | w in log :: (w.container, w.key)
  }

  /** The keys stored in the containers of `cs`. */
  ghost function Stored(m: Containers, cs: set<string>): set<(string, string)> {
    set c, k | c in cs && c in m && k in m[c] :: (c, k)
  }

  /** Versions are positions of the log, and no two keys share one. */
  lemma VersionsAreDistinct(log: Log, c: string, k: string, c': string, k': string)
    requires Lookup(Index(log), c, k).Some? && Lookup(Index(log), c', k').Some?
    ensures 1 <= Lookup(Index(log), c, k).value.keyVersion <= |log|
    ensures (c, k) != (c', k') ==>
      Lookup(Index(log), c, k).value.keyVersion != Lookup(Index(log), c', k').value.keyVersion
  {
    LookupIndex(log, c, k);
    LookupIndex(log, c', k');
    LastPosMeaning(log, c, k);
    LastPosMeaning(log, c', k');
  }

  lemma StoredIsTouched(log: Log)
    ensures Stored(Index(log), Index(log).Keys) == Touched(log)
  {
    forall c, k
      ensures (c, k) in Stored(Index(log), Index(log).Keys) <==> (c, k) in Touched(log)
    {
      var p := LastPos(log, c, k);
      LookupIndex(log, c, k);
      LastPosMeaning(log, c, k);
      if p != 0 {
        assert log[p - 1] in log;
      }
    }
  }

  lemma {:induction false} TouchedBound(log: Log)
    ensures |Touched(log)| <= |log|
  {
    if log != [] {
      var n := |log| - 1;
      TouchedBound(log[..n]);
      assert log == log[..n] + [log[n]];
      assert Touched(log) == Touched(log[..n]) + {(log[n].container, log[n].key)};
    }
  }

  lemma {:induction false} PairedSize(c: string, ks: set<string>)
    ensures |set k | k in ks :: (c, k)| == |ks|
  {
    if ks != {} {
      var x :| x in ks;
      PairedSize(c, ks - {x});
      assert (set k | k in ks :: (c, k)) == (set k | k in ks - {x} :: (c, k)) + {(c, x)};
    }
  }

  /** Counting container by container counts every stored key once. */
  lemma StoredStep(m: Containers, done: set<string>, c: string)
    requires c in m && c !in done
    ensures |Stored(m, done + {c})| == |Stored(m, done)| + |m[c]|
  {
    var row := set k | k in m[c].Keys :: (c, k);
    PairedSize(c, m[c].Keys);
    assert Stored(m, done + {c}) == Stored(m, done) + row;
    assert Stored(m, done) !! row;
  }

  lemma {:induction false} ContainersBound(m: Containers, cs: set<string>)
    requires Trim(m) && cs <= m.Keys
    ensures |cs| <= |Stored(m, cs)|
  {
    if cs != {} {
      var c :| c in cs;
      ContainersBound(m, cs - {c});
      StoredStep(m, cs - {c}, c);
      assert cs - {c} + {c} == cs;
      assert m[c] != map[];
    }
  }

  /** container_count <= fragment_count <= room_counter, and fragment_count is the number of keys ever written. */
  lemma Accounting(log: Log)
    ensures |Index(log)| <= |Stored(Index(log), Index(log).Keys)| <= |log|
    ensures |Stored(Index(log), Index(log).Keys)| == |Touched(log)|
  {
    IndexContainers(log, PUBLIC);
    ContainersBound(Index(log), Index(log).Keys);
    StoredIsTouched(log);
    TouchedBound(log);
  }
}
