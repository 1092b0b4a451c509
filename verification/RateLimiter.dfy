/**
  The sliding-window rate limiter. Every call evicts stale grants of all keys; the grants of
  one key are kept in the order in which they were made, which is the order of their clock
  readings only if the readings never go back.
 */
module RateLimiter {

  type Buckets = map<string, seq<nat>>

  /** One call of `allow`, with the clock reading it uses. */
  datatype Call = Call(key: string, limit: nat, window: nat, now: nat)

  /** Time since `t`; a reading later than `now` counts as no time at all. */
  function Elapsed(now: nat, t: nat): nat {
    if t <= now then now - t else 0
  }

  /** What `clean_entry` leaves: it stops at the first grant that is not stale. */
  function DropStale(entry: seq<nat>, now: nat, window: nat): seq<nat> {
    if entry != [] && Elapsed(now, entry[0]) > window then DropStale(entry[1..], now, window) else entry
  }

  function Bucket(buckets: Buckets, key: string): seq<nat> {
    if key in buckets then buckets[key] else []
  }

  function Evict(buckets: Buckets, now: nat, window: nat): Buckets {
    map key | key in buckets && DropStale(buckets[key], now, window) != []
      :: DropStale(buckets[key], now, window)
  }

  function Allow(buckets: Buckets, call: Call): (Buckets, bool) {
    var kept := Evict(buckets, call.now, call.window);
    var entry := Bucket(kept, call.key);
    if |entry| >= call.limit then (kept[call.key := entry], false)
    else (kept[call.key := entry + [call.now]], true)
  }

  function After(buckets: Buckets, calls: seq<Call>): Buckets
    decreases calls
  {
    if calls == [] then buckets else After(Allow(buckets, calls[0]).0, calls[1..])
  }

  function Answers(buckets: Buckets, calls: seq<Call>): seq<bool>
    decreases calls
  {
    if calls == [] then []
    else
      var (next, granted) := Allow(buckets, calls[0]);
      [granted] + Answers(next, calls[1..])
  }

  /** The calls that were granted, in order. */
  function Grants(buckets: Buckets, calls: seq<Call>): seq<Call>
    decreases calls
  {
    if calls == [] then []
    else
      var (next, granted) := Allow(buckets, calls[0]);
      var later := Grants(next, calls[1..]);
      if granted then [calls[0]] + later else later
  }

  /** The clock readings of the calls for one key. */
  function Times(calls: seq<Call>, key: string): seq<nat> {
    if calls == [] then []
    else
      var last := calls[|calls| - 1];
      var times := Times(calls[..|calls| - 1], key);
      if last.key == key then times + [last.now] else times
  }

  /** The readings that are at most `window` old, wherever they stand. */
  function Recent(times: seq<nat>, now: nat, window: nat): seq<nat> {
    if times == [] then []
    else
      var last := times[|times| - 1];
      var recent := Recent(times[..|times| - 1], now, window);
      if Elapsed(now, last) <= window then recent + [last] else recent
  }

  function CountIn(times: seq<nat>, lo: nat, hi: int): nat {
    if times == [] then 0
    else CountIn(times[..|times| - 1], lo, hi) + (if lo <= times[|times| - 1] <= hi then 1 else 0)
  }

  // ---------------------------------------------------------------- the simple limiter

  /** A limiter that forgets nothing: it counts this key's grants of age at most the window. */
  function SimpleAllow(grants: seq<Call>, call: Call): bool {
    |Recent(Times(grants, call.key), call.now, call.window)| < call.limit
  }

  function SimpleAnswers(grants: seq<Call>, calls: seq<Call>): seq<bool>
    decreases calls
  {
    if calls == [] then []
    else
      var granted := SimpleAllow(grants, calls[0]);
      [granted] + SimpleAnswers(if granted then grants + [calls[0]] else grants, calls[1..])
  }

  function Only(calls: seq<Call>, key: string): seq<Call> {
    if calls == [] then []
    else if calls[0].key == key then [calls[0]] + Only(calls[1..], key)
    else Only(calls[1..], key)
  }

  /** The answers at the positions of the calls for `key`. */
  function AnswersTo(key: string, calls: seq<Call>, answers: seq<bool>): seq<bool>
    requires |calls| == |answers|
    decreases calls
  {
    if calls == [] then []
    else (if calls[0].key == key then [answers[0]] else []) + AnswersTo(key, calls[1..], answers[1..])
  }

  // ---------------------------------------------------------------- assumptions on the clock

  /** Readings never go back, and every call uses the same window. */
  ghost predicate Monotone(from: nat, window: nat, calls: seq<Call>)
    decreases calls
  {
    calls != [] ==>
      from <= calls[0].now && calls[0].window == window && Monotone(calls[0].now, window, calls[1..])
  }

  /** Calls with this limit and window, at readings that go from `from` to `to` and never back. */
  ghost predicate Ordered(from: nat, calls: seq<Call>, to: nat, limit: nat, window: nat)
    decreases calls
  {
    if calls == [] then from <= to
    else
      && from <= calls[0].now && calls[0].limit == limit && calls[0].window == window
      && Ordered(calls[0].now, calls[1..], to, limit, window)
  }

  /** Readings are at most `skew` behind the largest one so far, and every call uses the same window. */
  ghost predicate WithinSkew(largest: nat, skew: nat, window: nat, calls: seq<Call>)
    decreases calls
  {
    calls != [] ==>
      && largest <= calls[0].now + skew && calls[0].window == window
      && WithinSkew(Later(largest, calls[0].now), skew, window, calls[1..])
  }

  function Later(a: nat, b: nat): nat {
    if a < b then b else a
  }

  ghost predicate Sorted(times: seq<nat>, bound: nat) {
    && (forall i, j | 0 <= i < j < |times| :: times[i] <= times[j])
    && (forall i | 0 <= i < |times| :: times[i] <= bound)
  }

  // ---------------------------------------------------------------- runs one after the other

  lemma RunsConcat(buckets: Buckets, a: seq<Call>, b: seq<Call>)
    ensures After(buckets, a + b) == After(After(buckets, a), b)
    ensures Answers(buckets, a + b) == Answers(buckets, a) + Answers(After(buckets, a), b)
  {
    RunsSplit(buckets, a, b, a + b);
  }

  lemma {:induction false} RunsSplit(buckets: Buckets, a: seq<Call>, b: seq<Call>, whole: seq<Call>)
    requires whole == a + b
    ensures After(buckets, whole) == After(After(buckets, a), b)
    ensures Answers(buckets, whole) == Answers(buckets, a) + Answers(After(buckets, a), b)
    decreases a
  {
    if a == [] {
      assert whole == b;
    } else {
      assert whole[0] == a[0] && whole[1..] == a[1..] + b;
      RunsSplit(Allow(buckets, a[0]).0, a[1..], b, whole[1..]);
    }
  }

  lemma GrantsConcat(buckets: Buckets, a: seq<Call>, b: seq<Call>)
    ensures Grants(buckets, a + b) == Grants(buckets, a) + Grants(After(buckets, a), b)
  {
    GrantsSplit(buckets, a, b, a + b);
  }

  lemma {:induction false} GrantsSplit(buckets: Buckets, a: seq<Call>, b: seq<Call>, whole: seq<Call>)
    requires whole == a + b
    ensures Grants(buckets, whole) == Grants(buckets, a) + Grants(After(buckets, a), b)
    decreases a
  {
    if a == [] {
      assert whole == b;
    } else {
      assert whole[0] == a[0] && whole[1..] == a[1..] + b;
      GrantsSplit(Allow(buckets, a[0]).0, a[1..], b, whole[1..]);
    }
  }

  lemma ThreeParts(buckets: Buckets, a: seq<Call>, b: seq<Call>, c: seq<Call>)
    ensures Grants(buckets, a + (b + c))
         == Grants(buckets, a) + Grants(After(buckets, a), b) + Grants(After(After(buckets, a), b), c)
  {
    GrantsConcat(buckets, a, b + c);
    GrantsConcat(After(buckets, a), b, c);
  }

  // ---------------------------------------------------------------- refinement

  lemma {:induction false} AllRecent(times: seq<nat>, now: nat, window: nat)
    requires forall i | 0 <= i < |times| :: Elapsed(now, times[i]) <= window
    ensures Recent(times, now, window) == times
  {
    if times != [] {
      AllRecent(times[..|times| - 1], now, window);
    }
  }

  lemma {:induction false} RecentConcat(a: seq<nat>, b: seq<nat>, now: nat, window: nat)
    ensures Recent(a + b, now, window) == Recent(a, now, window) + Recent(b, now, window)
  {
    if b == [] {
      assert a + b == a;
    } else {
      assert (a + b)[..|a + b| - 1] == a + b[..|b| - 1];
      RecentConcat(a, b[..|b| - 1], now, window);
    }
  }

  /** On sorted readings, dropping a stale prefix is the same as filtering. */
  lemma {:induction false} DropStaleIsRecent(times: seq<nat>, now: nat, window: nat)
    requires forall i, j | 0 <= i < j < |times| :: times[i] <= times[j]
    ensures DropStale(times, now, window) == Recent(times, now, window)
  {
    if times != [] && Elapsed(now, times[0]) > window {
      DropStaleIsRecent(times[1..], now, window);
      assert times == [times[0]] + times[1..];
      RecentConcat([times[0]], times[1..], now, window);
    } else {
      AllRecent(times, now, window);
    }
  }

  lemma {:induction false} RecentTwice(times: seq<nat>, before: nat, now: nat, window: nat)
    requires before <= now
    ensures Recent(Recent(times, before, window), now, window) == Recent(times, now, window)
  {
    if times != [] {
      var n := |times| - 1;
      var kept := Recent(times[..n], before, window);
      RecentTwice(times[..n], before, now, window);
      if Elapsed(before, times[n]) <= window {
        assert (kept + [times[n]])[..|kept|] == kept;
      }
    }
  }

  lemma {:induction false} RecentSorted(times: seq<nat>, bound: nat, now: nat, window: nat)
    requires Sorted(times, bound)
    ensures Sorted(Recent(times, now, window), bound)
  {
    if times != [] {
      var n := |times| - 1;
      RecentSorted(times[..n], times[n], now, window);
    }
  }

  /** After a call at time `last`, each bucket holds this key's grants of age at most the window. */
  ghost predicate Tracks(buckets: Buckets, grants: seq<Call>, last: nat, window: nat) {
    forall key :: TracksKey(buckets, grants, last, window, key)
  }

  ghost predicate TracksKey(buckets: Buckets, grants: seq<Call>, last: nat, window: nat, key: string) {
    Sorted(Times(grants, key), last) && Bucket(buckets, key) == Recent(Times(grants, key), last, window)
  }

  lemma EvictBucket(buckets: Buckets, now: nat, window: nat, key: string)
    ensures Bucket(Evict(buckets, now, window), key) == DropStale(Bucket(buckets, key), now, window)
  {
  }

  lemma DropTracked(times: seq<nat>, last: nat, now: nat, window: nat)
    requires Sorted(times, last) && last <= now
    ensures DropStale(Recent(times, last, window), now, window) == Recent(times, now, window)
    ensures Sorted(times, now)
  {
    RecentSorted(times, last, last, window);
    DropStaleIsRecent(Recent(times, last, window), now, window);
    RecentTwice(times, last, now, window);
  }

  /** What one call does to one key: stale grants at the front go, and a grant is added at the end. */
  lemma AllowEffect(buckets: Buckets, grants: seq<Call>, call: Call, key: string)
    ensures var (next, granted) := Allow(buckets, call);
      var kept := DropStale(Bucket(buckets, key), call.now, call.window);
      var mine := granted && call.key == key;
      && Bucket(next, key) == (if mine then kept + [call.now] else kept)
      && (call.key == key ==> granted == (|kept| < call.limit))
      && Times(Granting(grants, call, granted), key)
         == (if mine then Times(grants, key) + [call.now] else Times(grants, key))
  {
    EvictBucket(buckets, call.now, call.window, key);
    EvictBucket(buckets, call.now, call.window, call.key);
    assert (grants + [call])[..|grants|] == grants;
  }

  function Granting(grants: seq<Call>, call: Call, granted: bool): seq<Call> {
    if granted then grants + [call] else grants
  }

  lemma AllowTracks(buckets: Buckets, grants: seq<Call>, last: nat, call: Call)
    requires Tracks(buckets, grants, last, call.window) && last <= call.now
    ensures var (next, granted) := Allow(buckets, call);
      && granted == SimpleAllow(grants, call)
      && Tracks(next, Granting(grants, call, granted), call.now, call.window)
  {
    var (next, granted) := Allow(buckets, call);
    AllowTracksKey(buckets, grants, last, call, call.key);
    forall key
      ensures TracksKey(next, Granting(grants, call, granted), call.now, call.window, key)
    {
      AllowTracksKey(buckets, grants, last, call, key);
    }
  }

  lemma AllowTracksKey(buckets: Buckets, grants: seq<Call>, last: nat, call: Call, key: string)
    requires Tracks(buckets, grants, last, call.window) && last <= call.now
    ensures var (next, granted) := Allow(buckets, call);
      && (key == call.key ==> granted == SimpleAllow(grants, call))
      && TracksKey(next, Granting(grants, call, granted), call.now, call.window, key)
  {
    var times := Times(grants, key);
    assert TracksKey(buckets, grants, last, call.window, key);
    AllowEffect(buckets, grants, call, key);
    DropTracked(times, last, call.now, call.window);
    SortedAppend(times, call.now);
    RecentConcat(times, [call.now], call.now, call.window);
    AllRecent([call.now], call.now, call.window);
  }

  lemma SortedAppend(times: seq<nat>, now: nat)
    requires Sorted(times, now)
    ensures Sorted(times + [now], now)
  {
  }

  lemma TimesOfOne(call: Call, key: string)
    ensures Times([call], key) == if call.key == key then [call.now] else []
  {
    assert [call][..0] == [];
    assert Times([], key) == [];
  }

  lemma {:induction false} RunTracks(buckets: Buckets, grants: seq<Call>, last: nat, window: nat, calls: seq<Call>)
    requires Tracks(buckets, grants, last, window) && Monotone(last, window, calls)
    ensures Answers(buckets, calls) == SimpleAnswers(grants, calls)
    decreases calls
  {
    if calls != [] {
      var (next, granted) := Allow(buckets, calls[0]);
      AllowTracks(buckets, grants, last, calls[0]);
      RunTracks(next, Granting(grants, calls[0], granted), calls[0].now, window, calls[1..]);
    }
  }

  /**
    With a clock that never goes back, every answer is that of the limiter that keeps all
    grants forever: evicting stale grants of all keys on every call is invisible.
   */
  lemma RefinesSimple(start: nat, window: nat, calls: seq<Call>)
    requires Monotone(start, window, calls)
    ensures Answers(map[], calls) == SimpleAnswers([], calls)
  {
    assert Tracks(map[], [], start, window);
    RunTracks(map[], [], start, window, calls);
  }

  lemma {:induction false} OnlyConcat(a: seq<Call>, b: seq<Call>, key: string)
    ensures Only(a + b, key) == Only(a, key) + Only(b, key)
  {
    if a == [] {
      assert a + b == b;
    } else {
      assert (a + b)[1..] == a[1..] + b;
      OnlyConcat(a[1..], b, key);
    }
  }

  lemma {:induction false} TimesOfOnly(calls: seq<Call>, key: string)
    ensures Times(Only(calls, key), key) == Times(calls, key)
  {
    if calls != [] {
      TimesOfOnly(calls[1..], key);
      assert calls == [calls[0]] + calls[1..];
      TimesConcat([calls[0]], calls[1..], key);
      TimesConcat([calls[0]], Only(calls[1..], key), key);
      TimesOfOne(calls[0], key);
    }
  }

  lemma SimpleAllowOnly(grants: seq<Call>, call: Call)
    ensures SimpleAllow(Only(grants, call.key), call) == SimpleAllow(grants, call)
    ensures Only(grants + [call], call.key) == Only(grants, call.key) + [call]
    ensures forall key | key != call.key :: Only(grants + [call], key) == Only(grants, key)
  {
    TimesOfOnly(grants, call.key);
    forall key
      ensures Only(grants + [call], key) == Only(grants, key) + (if key == call.key then [call] else [])
    {
      OnlyConcat(grants, [call], key);
      assert [call][1..] == [] && Only([], key) == [];
    }
  }

  lemma {:induction false} SimpleIsPerKey(grants: seq<Call>, calls: seq<Call>, key: string)
    ensures |SimpleAnswers(grants, calls)| == |calls|
    ensures AnswersTo(key, calls, SimpleAnswers(grants, calls)) == SimpleAnswers(Only(grants, key), Only(calls, key))
    decreases calls
  {
    if calls != [] {
      var granted := SimpleAllow(grants, calls[0]);
      var next := if granted then grants + [calls[0]] else grants;
      SimpleIsPerKey(next, calls[1..], key);
      SimpleAllowOnly(grants, calls[0]);
      assert SimpleAnswers(grants, calls)[1..] == SimpleAnswers(next, calls[1..]);
      if calls[0].key == key {
        assert Only(calls, key)[1..] == Only(calls[1..], key);
      } else {
        assert Only(calls, key) == Only(calls[1..], key);
      }
    }
  }

  lemma {:induction false} OnlyMonotone(from: nat, window: nat, calls: seq<Call>, key: string)
    requires Monotone(from, window, calls)
    ensures Monotone(from, window, Only(calls, key))
    decreases calls
  {
    if calls != [] {
      var rest := Only(calls[1..], key);
      OnlyMonotone(calls[0].now, window, calls[1..], key);
      if calls[0].key == key {
        assert Only(calls, key)[1..] == rest;
      } else {
        assert Only(calls, key) == rest;
      }
    }
  }

  lemma {:induction false} AnswersLength(buckets: Buckets, calls: seq<Call>)
    ensures |Answers(buckets, calls)| == |calls|
    decreases calls
  {
    if calls != [] {
      AnswersLength(Allow(buckets, calls[0]).0, calls[1..]);
    }
  }

  /** The answers to one key are those it would get if no other key ever called. */
  lemma KeysAreIndependent(start: nat, window: nat, calls: seq<Call>, key: string)
    requires Monotone(start, window, calls)
    ensures |Answers(map[], calls)| == |calls|
    ensures AnswersTo(key, calls, Answers(map[], calls)) == Answers(map[], Only(calls, key))
  {
    RefinesSimple(start, window, calls);
    SimpleIsPerKey([], calls, key);
    OnlyMonotone(start, window, calls, key);
    RefinesSimple(start, window, Only(calls, key));
  }

  // ---------------------------------------------------------------- the bound

  lemma {:induction false} CountConcat(a: seq<nat>, b: seq<nat>, lo: nat, hi: int)
    ensures CountIn(a + b, lo, hi) == CountIn(a, lo, hi) + CountIn(b, lo, hi)
    ensures CountIn(a, lo, hi) <= |a|
  {
    if b == [] {
      assert a + b == a;
      if a != [] {
        CountConcat(a[..|a| - 1], [], lo, hi);
      }
    } else {
      assert (a + b)[..|a + b| - 1] == a + b[..|b| - 1];
      CountConcat(a, b[..|b| - 1], lo, hi);
    }
  }

  /** Eviction at `now` drops nothing that is younger than the window. */
  lemma {:induction false} DropStaleKeeps(entry: seq<nat>, now: nat, window: nat, lo: nat, hi: int)
    requires now <= lo + window
    ensures CountIn(DropStale(entry, now, window), lo, hi) == CountIn(entry, lo, hi)
  {
    if entry != [] && Elapsed(now, entry[0]) > window {
      DropStaleKeeps(entry[1..], now, window, lo, hi);
      assert entry == [entry[0]] + entry[1..];
      CountConcat([entry[0]], entry[1..], lo, hi);
    }
  }

  lemma {:induction false} TimesConcat(a: seq<Call>, b: seq<Call>, key: string)
    ensures Times(a + b, key) == Times(a, key) + Times(b, key)
  {
    if b == [] {
      assert a + b == a;
    } else {
      assert (a + b)[..|a + b| - 1] == a + b[..|b| - 1];
      TimesConcat(a, b[..|b| - 1], key);
    }
  }

  /** While no reading is past lo + window, the bucket still holds every grant since lo. */
  ghost predicate Holds(buckets: Buckets, grants: seq<Call>, largest: nat, window: nat, key: string, lo: nat, hi: int) {
    largest <= lo + window ==>
      CountIn(Bucket(buckets, key), lo, hi) == CountIn(Times(grants, key), lo, hi)
  }

  lemma CountAppend(times: seq<nat>, now: nat, lo: nat, hi: int)
    ensures CountIn(times + [now], lo, hi) == CountIn(times, lo, hi) + (if lo <= now <= hi then 1 else 0)
    ensures CountIn(times, lo, hi) <= |times|
  {
    CountConcat(times, [], lo, hi);
    assert (times + [now])[..|times|] == times;
  }

  /** The bounded count of one key's grants, and what its bucket still holds. */
  ghost predicate Bounded(buckets: Buckets, grants: seq<Call>, largest: nat, window: nat, key: string, lo: nat, hi: int,
                          limit: nat)
  {
    Holds(buckets, grants, largest, window, key, lo, hi) && CountIn(Times(grants, key), lo, hi) <= limit
  }

  lemma AllowHolds(buckets: Buckets, grants: seq<Call>, largest: nat, skew: nat, window: nat, call: Call, key: string,
                   lo: nat, hi: int, limit: nat)
    requires skew <= window == call.window && largest <= call.now + skew && hi == lo + window - skew
    requires call.key == key ==> call.limit <= limit
    requires Bounded(buckets, grants, largest, window, key, lo, hi, limit)
    ensures var (next, granted) := Allow(buckets, call);
      Bounded(next, Granting(grants, call, granted), Later(largest, call.now), window, key, lo, hi, limit)
  {
    var (next, granted) := Allow(buckets, call);
    var mine := granted && call.key == key;
    AllowEffect(buckets, grants, call, key);
    assert mine ==> |DropStale(Bucket(buckets, key), call.now, window)| < limit;
    BoundStep(Bucket(buckets, key), Times(grants, key), largest, skew, window, call.now, lo, limit, mine);
  }

  /** The bound for one key: a grant inside the interval finds all earlier ones in the bucket. */
  lemma BoundStep(bucket: seq<nat>, times: seq<nat>, largest: nat, skew: nat, window: nat, now: nat, lo: nat,
                  limit: nat, mine: bool)
    requires skew <= window && largest <= now + skew
    requires mine ==> |DropStale(bucket, now, window)| < limit
    requires largest <= lo + window ==>
      CountIn(bucket, lo, lo + window - skew) == CountIn(times, lo, lo + window - skew)
    requires CountIn(times, lo, lo + window - skew) <= limit
    ensures var kept := DropStale(bucket, now, window);
      var bucket', times' := if mine then kept + [now] else kept, if mine then times + [now] else times;
      var hi := lo + window - skew;
      && (Later(largest, now) <= lo + window ==> CountIn(bucket', lo, hi) == CountIn(times', lo, hi))
      && CountIn(times', lo, hi) <= limit
  {
    var hi := lo + window - skew;
    CountAppend(times, now, lo, hi);
    CountAppend(DropStale(bucket, now, window), now, lo, hi);
    if Later(largest, now) <= lo + window {
      DropStaleKeeps(bucket, now, window, lo, hi);
    }
  }

  ghost predicate LimitedBy(calls: seq<Call>, key: string, limit: nat) {
    forall i | 0 <= i < |calls| && calls[i].key == key :: calls[i].limit <= limit
  }

  lemma LimitedTail(calls: seq<Call>, key: string, limit: nat)
    requires LimitedBy(calls, key, limit) && calls != []
    ensures LimitedBy(calls[1..], key, limit)
  {
    assert forall i | 0 <= i < |calls| - 1 :: calls[1..][i] == calls[i + 1];
  }

  lemma GrantsStep(buckets: Buckets, grants: seq<Call>, calls: seq<Call>)
    requires calls != []
    ensures var (next, granted) := Allow(buckets, calls[0]);
      grants + Grants(buckets, calls) == Granting(grants, calls[0], granted) + Grants(next, calls[1..])
  {
  }

  /** `all` are the grants so far and those still to come. */
  lemma {:induction false} RunHolds(buckets: Buckets, grants: seq<Call>, largest: nat, skew: nat, window: nat,
                                    calls: seq<Call>, key: string, lo: nat, hi: int, limit: nat, all: seq<Call>)
    requires skew <= window && hi == lo + window - skew
    requires WithinSkew(largest, skew, window, calls) && LimitedBy(calls, key, limit)
    requires Bounded(buckets, grants, largest, window, key, lo, hi, limit)
    requires all == grants + Grants(buckets, calls)
    ensures CountIn(Times(all, key), lo, hi) <= limit
    decreases calls
  {
    if calls == [] {
      assert all == grants;
    } else {
      var call, rest := calls[0], calls[1..];
      var (next, granted) := Allow(buckets, call);
      GrantsStep(buckets, grants, calls);
      LimitedTail(calls, key, limit);
      AllowHolds(buckets, grants, largest, skew, window, call, key, lo, hi, limit);
      RunHolds(next, Granting(grants, call, granted), Later(largest, call.now), skew, window, rest, key, lo, hi, limit,
               all);
    }
  }

  /**
    Readings may reach the lock up to `skew` late. Then every closed interval of length
    window - skew holds at most `limit` grants of a key, although its bucket may be unsorted.
   */
  lemma BoundUnderSkew(largest: nat, skew: nat, window: nat, calls: seq<Call>, key: string, lo: nat, limit: nat)
    requires skew <= window && WithinSkew(largest, skew, window, calls)
    requires LimitedBy(calls, key, limit)
    ensures CountIn(Times(Grants(map[], calls), key), lo, lo + window - skew) <= limit
  {
    var all := Grants(map[], calls);
    assert all == [] + all;
    RunHolds(map[], [], largest, skew, window, calls, key, lo, lo + window - skew, limit, all);
  }

  lemma {:induction false} MonotoneHasNoSkew(from: nat, window: nat, calls: seq<Call>)
    requires Monotone(from, window, calls)
    ensures WithinSkew(from, 0, window, calls)
    decreases calls
  {
    if calls != [] {
      MonotoneHasNoSkew(calls[0].now, window, calls[1..]);
    }
  }

  /** With a clock that never goes back, every window holds at most `limit` grants of a key. */
  lemma BoundPerWindow(from: nat, window: nat, calls: seq<Call>, key: string, lo: nat, limit: nat)
    requires Monotone(from, window, calls) && LimitedBy(calls, key, limit)
    ensures CountIn(Times(Grants(map[], calls), key), lo, lo + window) <= limit
  {
    MonotoneHasNoSkew(from, window, calls);
    BoundUnderSkew(from, 0, window, calls, key, lo, limit);
  }

  // ---------------------------------------------------------------- calls in order

  lemma {:induction false} OrderedCalls(from: nat, calls: seq<Call>, to: nat, limit: nat, window: nat, key: string)
    requires Ordered(from, calls, to, limit, window)
    ensures from <= to && Monotone(from, window, calls) && LimitedBy(calls, key, limit)
    decreases calls
  {
    if calls != [] {
      OrderedCalls(calls[0].now, calls[1..], to, limit, window, key);
    }
  }

  lemma {:induction false} OrderedWider(from: nat, calls: seq<Call>, to: nat, from': nat, to': nat, limit: nat,
                                        window: nat)
    requires Ordered(from, calls, to, limit, window) && from' <= from && to <= to'
    ensures Ordered(from', calls, to', limit, window)
    decreases calls
  {
    if calls != [] {
      OrderedWider(calls[0].now, calls[1..], to, calls[0].now, to', limit, window);
    }
  }

  lemma {:induction false} OrderedConcat(from: nat, a: seq<Call>, mid: nat, b: seq<Call>, to: nat, limit: nat,
                                         window: nat, whole: seq<Call>)
    requires whole == a + b
    requires Ordered(from, a, mid, limit, window) && Ordered(mid, b, to, limit, window)
    ensures Ordered(from, whole, to, limit, window)
    decreases a
  {
    if a == [] {
      assert whole == b;
      OrderedWider(mid, b, to, from, to, limit, window);
    } else {
      assert whole[0] == a[0] && whole[1..] == a[1..] + b;
      OrderedConcat(a[0].now, a[1..], mid, b, to, limit, window, whole[1..]);
    }
  }

  /** Buckets as they are after calls in order up to a point in time. */
  ghost predicate GoodHistory(buckets: Buckets, calls: seq<Call>, limit: nat, window: nat, clock: nat) {
    buckets == After(map[], calls) && Ordered(0, calls, clock, limit, window)
  }

  /** How many calls of a run are granted to a key, at readings from `lo` to `hi`. */
  function GrantedIn(buckets: Buckets, calls: seq<Call>, key: string, lo: nat, hi: int): nat {
    CountIn(Times(Grants(buckets, calls), key), lo, hi)
  }

  lemma GrantedInConcat(buckets: Buckets, a: seq<Call>, b: seq<Call>, key: string, lo: nat, hi: int)
    ensures GrantedIn(buckets, a + b, key, lo, hi)
         == GrantedIn(buckets, a, key, lo, hi) + GrantedIn(After(buckets, a), b, key, lo, hi)
  {
    var first, second := Grants(buckets, a), Grants(After(buckets, a), b);
    GrantsConcat(buckets, a, b);
    TimesConcat(first, second, key);
    CountConcat(Times(first, key), Times(second, key), lo, hi);
  }

  /** Whatever was called before, one key is granted at most `limit` calls of a run in any window. */
  lemma GrantRate(buckets: Buckets, calls: seq<Call>, clock: nat, later: seq<Call>, to: nat, limit: nat, window: nat,
                  key: string, lo: nat, hi: int)
    requires GoodHistory(buckets, calls, limit, window, clock) && Ordered(clock, later, to, limit, window)
    requires hi <= lo + window
    ensures GrantedIn(buckets, later, key, lo, hi) <= limit
  {
    OrderedConcat(0, calls, clock, later, to, limit, window, calls + later);
    OrderedRate(calls + later, to, limit, window, key, lo, hi);
    GrantedInConcat(map[], calls, later, key, lo, hi);
  }

  lemma OrderedRate(calls: seq<Call>, to: nat, limit: nat, window: nat, key: string, lo: nat, hi: int)
    requires Ordered(0, calls, to, limit, window) && hi <= lo + window
    ensures GrantedIn(map[], calls, key, lo, hi) <= limit
  {
    OrderedCalls(0, calls, to, limit, window, key);
    BoundPerWindow(0, window, calls, key, lo, limit);
    CountWithin(Times(Grants(map[], calls), key), lo, hi, lo + window);
  }

  // ---------------------------------------------------------------- how much lateness costs

  /** The grants of a key in a closed interval, over a run of a fresh limiter. */
  function GrantsWithin(calls: seq<Call>, key: string, lo: nat, length: nat): nat {
    CountIn(Times(Grants(map[], calls), key), lo, lo + length)
  }

  /** Readings at most `skew` late never put more than `limit` grants of a key into an interval of this length. */
  ghost predicate SafeLength(limit: nat, skew: nat, window: nat, length: nat) {
    forall start, calls, key, lo | WithinSkew(start, skew, window, calls) && LimitedBy(calls, key, limit) ::
      GrantsWithin(calls, key, lo, length) <= limit
  }

  /** The same call n times in a row. */
  function Burst(call: Call, n: nat): seq<Call> {
    if n == 0 then [] else [call] + Burst(call, n - 1)
  }

  /** The earliest reading that is still within the skew once a reading past the window was taken. */
  function Latest(skew: nat, window: nat): nat {
    if skew <= window + 1 then window + 1 - skew else 0
  }

  /** Use up the limit at once, let another key's call evict everything, and use it up again as late as allowed. */
  function LateRun(limit: nat, skew: nat, window: nat): seq<Call> {
    Burst(Call("k", limit, window, 0), limit)
    + ([Call("other", limit, window, window + 1)] + Burst(Call("k", limit, window, Latest(skew, window)), limit))
  }

  lemma {:induction false} BurstTimes(call: Call, n: nat, lo: nat, hi: int)
    ensures CountIn(Times(Burst(call, n), call.key), lo, hi) == if lo <= call.now <= hi then n else 0
  {
    if n > 0 {
      BurstTimes(call, n - 1, lo, hi);
      TimesConcat([call], Burst(call, n - 1), call.key);
      TimesOfOne(call, call.key);
      CountConcat([call.now], Times(Burst(call, n - 1), call.key), lo, hi);
      assert CountIn([call.now], lo, hi) == if lo <= call.now <= hi then 1 else 0 by {
        assert [call.now][..0] == [];
      }
    } else {
      assert Times([], call.key) == [];
    }
  }

  /** A burst within the limit is granted in full, and its key's bucket is left with nothing older. */
  lemma {:induction false} BurstGranted(buckets: Buckets, call: Call, n: nat)
    requires var kept := DropStale(Bucket(buckets, call.key), call.now, call.window);
      |kept| + n <= call.limit && AllAt(kept, call.now)
    ensures Grants(buckets, Burst(call, n)) == Burst(call, n)
    ensures AllAt(DropStale(Bucket(After(buckets, Burst(call, n)), call.key), call.now, call.window), call.now)
    decreases n
  {
    if n > 0 {
      BurstStep(buckets, call);
      BurstGranted(Allow(buckets, call).0, call, n - 1);
    }
  }

  ghost predicate AllAt(entry: seq<nat>, now: nat) {
    forall i | 0 <= i < |entry| :: entry[i] == now
  }

  lemma BurstStep(buckets: Buckets, call: Call)
    requires var kept := DropStale(Bucket(buckets, call.key), call.now, call.window);
      |kept| < call.limit && AllAt(kept, call.now)
    ensures var kept := DropStale(Bucket(buckets, call.key), call.now, call.window);
      var (next, granted) := Allow(buckets, call);
      var kept' := DropStale(Bucket(next, call.key), call.now, call.window);
      granted && |kept'| == |kept| + 1 && AllAt(kept', call.now)
  {
    AllowEffect(buckets, [], call, call.key);
    assert Bucket(Allow(buckets, call).0, call.key)[0] == call.now;
  }

  /** Once everything in a bucket is stale, eviction empties it. */
  lemma {:induction false} AllStale(entry: seq<nat>, now: nat, window: nat)
    requires forall i | 0 <= i < |entry| :: Elapsed(now, entry[i]) > window
    ensures DropStale(entry, now, window) == []
  {
    if entry != [] {
      AllStale(entry[1..], now, window);
    }
  }

  lemma FirstBurst(limit: nat, window: nat)
    ensures var burst := Burst(Call("k", limit, window, 0), limit);
      Grants(map[], burst) == burst
      && DropStale(Bucket(After(map[], burst), "k"), window + 1, window) == []
  {
    var call := Call("k", limit, window, 0);
    var burst := Burst(call, limit);
    BurstGranted(map[], call, limit);
    var entry := Bucket(After(map[], burst), "k");
    NothingStaleYet(entry, window);
    AllStale(entry, window + 1, window);
  }

  /** At reading 0 nothing is stale. */
  lemma NothingStaleYet(entry: seq<nat>, window: nat)
    ensures DropStale(entry, 0, window) == entry
  {
  }

  /** The other key's call leaves nothing of this key. */
  lemma AfterOther(buckets: Buckets, other: Call, late: Call)
    requires other.key != late.key && DropStale(Bucket(buckets, late.key), other.now, other.window) == []
    ensures Bucket(After(buckets, [other]), late.key) == []
    ensures forall call | call in Grants(buckets, [other]) :: call.key != late.key
  {
    AllowEffect(buckets, [], other, late.key);
    assert [other][1..] == [];
    var next := Allow(buckets, other).0;
    assert After(next, []) == next && Grants(next, []) == [];
  }

  lemma {:induction false} NoTimes(calls: seq<Call>, key: string)
    requires forall call | call in calls :: call.key != key
    ensures Times(calls, key) == []
  {
    if calls != [] {
      NoTimes(calls[..|calls| - 1], key);
    }
  }

  lemma LateRunCounts(limit: nat, skew: nat, window: nat, hi: int)
    requires Latest(skew, window) <= hi
    ensures CountIn(Times(Grants(map[], LateRun(limit, skew, window)), "k"), 0, hi) == 2 * limit
  {
    var first, late := Call("k", limit, window, 0), Call("k", limit, window, Latest(skew, window));
    var early, again := Burst(first, limit), Burst(late, limit);
    var other := Call("other", limit, window, window + 1);
    var b1 := After(map[], early);
    FirstBurst(limit, window);
    AfterOther(b1, other, late);
    BurstGranted(After(b1, [other]), late, limit);
    ThreeParts(map[], early, [other], again);
    BurstTimes(first, limit, 0, hi);
    BurstTimes(late, limit, 0, hi);
    AroundOthers(early, Grants(b1, [other]), again, "k", 0, hi);
  }

  lemma AroundOthers(a: seq<Call>, b: seq<Call>, c: seq<Call>, key: string, lo: nat, hi: int)
    requires forall call | call in b :: call.key != key
    ensures CountIn(Times(a + b + c, key), lo, hi) == CountIn(Times(a, key), lo, hi) + CountIn(Times(c, key), lo, hi)
  {
    NoTimes(b, key);
    TimesConcat(a, b, key);
    TimesConcat(a + b, c, key);
    assert Times(a, key) + [] == Times(a, key);
    CountConcat(Times(a, key), Times(c, key), lo, hi);
  }

  lemma {:induction false} BurstSkew(largest: nat, skew: nat, window: nat, call: Call, n: nat, rest: seq<Call>,
                                     whole: seq<Call>)
    requires largest <= call.now + skew && call.window == window && whole == Burst(call, n) + rest
    requires WithinSkew(largest, skew, window, rest) && WithinSkew(Later(largest, call.now), skew, window, rest)
    ensures WithinSkew(largest, skew, window, whole)
    decreases n
  {
    if n > 0 {
      assert whole[0] == call && whole[1..] == Burst(call, n - 1) + rest;
      BurstSkew(Later(largest, call.now), skew, window, call, n - 1, rest, whole[1..]);
    } else {
      assert whole == rest;
    }
  }

  lemma {:induction false} BurstLimited(call: Call, n: nat, key: string)
    ensures LimitedBy(Burst(call, n), key, call.limit)
  {
    if n > 0 {
      BurstLimited(call, n - 1, key);
    }
  }

  lemma LateRunIsWithinSkew(limit: nat, skew: nat, window: nat)
    ensures WithinSkew(0, skew, window, LateRun(limit, skew, window))
    ensures LimitedBy(LateRun(limit, skew, window), "k", limit)
  {
    var first, late := Call("k", limit, window, 0), Call("k", limit, window, Latest(skew, window));
    var other, again := Call("other", limit, window, window + 1), Burst(late, limit);
    assert again == again + [] && ([other] + again)[1..] == again;
    BurstSkew(window + 1, skew, window, late, limit, [], again);
    BurstSkew(0, skew, window, first, limit, [other] + again, LateRun(limit, skew, window));
    BurstLimited(first, limit, "k");
    BurstLimited(late, limit, "k");
  }

  lemma {:induction false} CountWithin(times: seq<nat>, lo: nat, hi: int, hi': int)
    requires hi <= hi'
    ensures CountIn(times, lo, hi) <= CountIn(times, lo, hi')
  {
    if times != [] {
      CountWithin(times[..|times| - 1], lo, hi, hi');
    }
  }

  lemma {:induction false} NoGrants(buckets: Buckets, calls: seq<Call>, key: string)
    requires LimitedBy(calls, key, 0)
    ensures Times(Grants(buckets, calls), key) == []
    decreases calls
  {
    if calls != [] {
      var (next, granted) := Allow(buckets, calls[0]);
      LimitedTail(calls, key, 0);
      NoGrants(next, calls[1..], key);
      TimesConcat([calls[0]], Grants(next, calls[1..]), key);
      TimesOfOne(calls[0], key);
    }
  }

  lemma SafeWhenShort(limit: nat, skew: nat, window: nat, length: nat,
                      start: nat, calls: seq<Call>, key: string, lo: nat)
    requires limit == 0 || length + skew <= window
    requires WithinSkew(start, skew, window, calls) && LimitedBy(calls, key, limit)
    ensures GrantsWithin(calls, key, lo, length) <= limit
  {
    if limit == 0 {
      NoGrants(map[], calls, key);
    } else {
      BoundUnderSkew(start, skew, window, calls, key, lo, limit);
      CountWithin(Times(Grants(map[], calls), key), lo, lo + length, lo + window - skew);
    }
  }

  /**
    The exact cost of lateness: intervals of a given length are safe if and only if nothing is
    ever granted or the length and the lateness together fit into the window. So the full
    window is safe exactly when no reading is late.
   */
  lemma SafeLengthIff(limit: nat, skew: nat, window: nat, length: nat)
    ensures SafeLength(limit, skew, window, length) <==> limit == 0 || length + skew <= window
  {
    if limit == 0 || length + skew <= window {
      forall start, calls, key, lo | WithinSkew(start, skew, window, calls) && LimitedBy(calls, key, limit)
        ensures GrantsWithin(calls, key, lo, length) <= limit
      {
        SafeWhenShort(limit, skew, window, length, start, calls, key, lo);
      }
    } else {
      var calls := LateRun(limit, skew, window);
      LateRunIsWithinSkew(limit, skew, window);
      LateRunCounts(limit, skew, window, length);
      assert GrantsWithin(calls, "k", 0, length) == 2 * limit;
    }
  }

  const LATE_CALLS := [Call("k", 1, 10, 0), Call("other", 1, 10, 11), Call("k", 1, 10, 10)]

  /**
    An instance: with limit 1 and window 10, a call reading 11 evicts the grant made at 0, and
    a late call reading 10 is granted too.
   */
  lemma FullWindowFailsUnderSkew()
    ensures WithinSkew(0, 1, 10, LATE_CALLS) && LimitedBy(LATE_CALLS, "k", 1)
    ensures CountIn(Times(Grants(map[], LATE_CALLS), "k"), 0, 10) == 2
  {
    var first, late := LATE_CALLS[0], LATE_CALLS[2];
    assert Burst(first, 1) == [first] + Burst(first, 0) == [first];
    assert Burst(late, 1) == [late] + Burst(late, 0) == [late];
    assert LateRun(1, 1, 10) == LATE_CALLS;
    LateRunIsWithinSkew(1, 1, 10);
    LateRunCounts(1, 1, 10, 10);
  }

  // ---------------------------------------------------------------- the limiter itself

  lemma AfterAppend(buckets: Buckets, calls: seq<Call>, call: Call)
    ensures After(buckets, calls + [call]) == Allow(After(buckets, calls), call).0
    ensures Answers(buckets, calls + [call])
         == Answers(buckets, calls) + [Allow(After(buckets, calls), call).1]
  {
    RunsConcat(buckets, calls, [call]);
    var next := Allow(After(buckets, calls), call).0;
    assert [call][1..] == [] && After(next, []) == next && Answers(next, []) == [];
  }

  // ---------------------------------------------------------------- what eviction achieves

  /**
    For any readings, sorted or not: eviction takes away the grants in front that are more than
    the window old, up to the first that is not. A grant read later than `now` is never too old.
   */
  lemma {:induction false} DropStaleExactly(entry: seq<nat>, now: nat, window: nat)
    ensures var dropped := |entry| - |DropStale(entry, now, window)|;
      && 0 <= dropped && DropStale(entry, now, window) == entry[dropped..]
      && (forall i | 0 <= i < dropped :: entry[i] + window < now)
      && (dropped < |entry| ==> now <= entry[dropped] + window)
  {
    if entry != [] && Elapsed(now, entry[0]) > window {
      DropStaleExactly(entry[1..], now, window);
    }
  }

  /** Whatever the clock did: after a call, every other key that is stored has a grant within the window. */
  lemma EvictionKeepsFresh(buckets: Buckets, call: Call, key: string)
    requires key in Allow(buckets, call).0 && key != call.key
    ensures var entry := Allow(buckets, call).0[key];
      entry != [] && Elapsed(call.now, entry[0]) <= call.window
  {
    FrontIsFresh(buckets[key], call.now, call.window);
  }

  lemma {:induction false} FrontIsFresh(entry: seq<nat>, now: nat, window: nat)
    ensures var kept := DropStale(entry, now, window); kept != [] ==> Elapsed(now, kept[0]) <= window
  {
    if entry != [] && Elapsed(now, entry[0]) > window {
      FrontIsFresh(entry[1..], now, window);
    }
  }

  /** Whatever the clock did: no bucket ever holds more than the largest limit its key was called with. */
  lemma {:induction false} BucketsAreBounded(buckets: Buckets, calls: seq<Call>, key: string, limit: nat)
    requires LimitedBy(calls, key, limit) && |Bucket(buckets, key)| <= limit
    ensures |Bucket(After(buckets, calls), key)| <= limit
    decreases calls
  {
    if calls != [] {
      AllowEffect(buckets, [], calls[0], key);
      DropStaleExactly(Bucket(buckets, key), calls[0].now, calls[0].window);
      LimitedTail(calls, key, limit);
      BucketsAreBounded(Allow(buckets, calls[0]).0, calls[1..], key, limit);
    }
  }

  function LastReading(from: nat, calls: seq<Call>): nat
    decreases calls
  {
    if calls == [] then from else LastReading(calls[0].now, calls[1..])
  }

  lemma {:induction false} RunKeepsTrack(buckets: Buckets, grants: seq<Call>, last: nat, window: nat, calls: seq<Call>,
                                         all: seq<Call>)
    requires Tracks(buckets, grants, last, window) && Monotone(last, window, calls)
    requires all == grants + Grants(buckets, calls)
    ensures Tracks(After(buckets, calls), all, LastReading(last, calls), window)
    decreases calls
  {
    if calls == [] {
      assert all == grants;
    } else {
      var (next, granted) := Allow(buckets, calls[0]);
      AllowTracks(buckets, grants, last, calls[0]);
      GrantsStep(buckets, grants, calls);
      RunKeepsTrack(next, Granting(grants, calls[0], granted), calls[0].now, window, calls[1..], all);
    }
  }

  /**
    With a clock that never goes back, what is stored after a call is exactly the caller's key
    and the keys with a grant within the window: memory does not grow with the keys ever seen.
   */
  lemma StoredKeysIff(start: nat, window: nat, calls: seq<Call>, call: Call, key: string)
    requires Monotone(start, window, calls)
    requires LastReading(start, calls) <= call.now && call.window == window
    ensures key in Allow(After(map[], calls), call).0
       <==> key == call.key || Recent(Times(Grants(map[], calls), key), call.now, window) != []
  {
    var buckets, grants, last := After(map[], calls), Grants(map[], calls), LastReading(start, calls);
    assert Tracks(map[], [], start, window) && grants == [] + grants;
    RunKeepsTrack(map[], [], start, window, calls, grants);
    assert TracksKey(buckets, grants, last, window, key);
    DropTracked(Times(grants, key), last, call.now, window);
  }

  // ---------------------------------------------------------------- the class

  class Limiter {
    var buckets: Buckets
    ghost var history: seq<Call>

    ghost predicate Valid()
      reads this
    {
      buckets == After(map[], history)
    }

    constructor ()
      ensures Valid() && history == []
    {
      buckets, history := map[], [];
    }

    static method CleanEntry(entry: seq<nat>, now: nat, window: nat) returns (kept: seq<nat>)
      ensures kept == DropStale(entry, now, window)
    {
      kept := entry;
      while kept != []
        invariant DropStale(kept, now, window) == DropStale(entry, now, window)
        decreases |kept|
      {
        if Elapsed(now, kept[0]) > window {
          kept := kept[1..];
        } else {
          break;
        }
      }
    }

    /** `now` is the reading taken before the lock, so it may be behind earlier calls. */
    method TryAllow(key: string, limit: nat, window: nat, now: nat) returns (granted: bool)
      requires Valid()
      modifies this
      ensures Valid()
      ensures history == old(history) + [Call(key, limit, window, now)]
      ensures Answers(map[], history) == Answers(map[], old(history)) + [granted]
    {
      ghost var call := Call(key, limit, window, now);
      AfterAppend(map[], history, call);

      var todo := buckets.Keys;
      var kept: Buckets := map[];
      while todo != {}
        invariant todo <= buckets.Keys
        invariant unchanged(this)
        invariant kept == Evict(buckets - todo, now, window)
        decreases |todo|
      {
        var k :| k in todo;
        var entry := CleanEntry(buckets[k], now, window);
        EvictStep(buckets, todo, k, now, window);
        todo := todo - {k};
        if entry != [] {
          kept := kept[k := entry];
        }
      }
      assert buckets - {} == buckets;
      assert kept == Evict(buckets, now, window);

      var entry := if key in kept then kept[key] else [];
      CleanTwice(Bucket(buckets, key), now, window);
      EvictBucket(buckets, now, window, key);
      entry := CleanEntry(entry, now, window);
      assert entry == Bucket(kept, key);
      if |entry| >= limit {
        granted := false;
      } else {
        entry := entry + [now];
        granted := true;
      }
      assert (kept[key := entry], granted) == Allow(buckets, call);
      buckets, history := kept[key := entry], history + [call];
    }
  }

  lemma EvictStep(buckets: Buckets, todo: set<string>, key: string, now: nat, window: nat)
    requires key in todo && key in buckets
    ensures var entry := DropStale(buckets[key], now, window);
      Evict(buckets - (todo - {key}), now, window)
      == if entry != [] then Evict(buckets - todo, now, window)[key := entry]
         else Evict(buckets - todo, now, window)
  {
  }

  lemma {:induction false} CleanTwice(entry: seq<nat>, now: nat, window: nat)
    ensures DropStale(DropStale(entry, now, window), now, window) == DropStale(entry, now, window)
  {
    if entry != [] && Elapsed(now, entry[0]) > window {
      CleanTwice(entry[1..], now, window);
    }
  }
}
