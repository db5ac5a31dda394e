/**
The fixed-window rate limiter: an in-memory store, a Redis store that runs a script of
INCR, EXPIRE and TTL, and the bound both put on every trace of hits. Times are seconds.
*/
module RateLimit {
  import opened Options

  datatype Decision = Decision(allowed: bool, remaining: int, resetAt: int)

  datatype Hit = Hit(key: string, window: int, max: int, now: int)

  function Decide(count: int, max: int, resetAt: int): Decision {
    Decision(count <= max, Max(0, max - count), resetAt)
  }

  // ----- the in-memory store -----

  datatype Bucket = Bucket(count: int, expiresAt: int)

  const NEW_BUCKET := Bucket(0, 0)

  function BucketAt(buckets: map<string, Bucket>, key: string): Bucket {
    if key in buckets then buckets[key] else NEW_BUCKET
  }

  function HitBucket(b: Bucket, window: int, now: int): Bucket {
    if b.expiresAt <= now then Bucket(1, now + window) else Bucket(b.count + 1, b.expiresAt)
  }

  function MemoryHit(buckets: map<string, Bucket>, h: Hit): (map<string, Bucket>, Decision) {
    var b := HitBucket(BucketAt(buckets, h.key), h.window, h.now);
    (buckets[h.key := b], Decide(b.count, h.max, b.expiresAt))
  }

  class InMemoryStore {
    var buckets: map<string, Bucket>

    constructor ()
      ensures buckets == map[]
    {
      buckets := map[];
    }

    method Hit(h: Hit) returns (d: Decision)
      modifies this
      ensures (buckets, d) == MemoryHit(old(buckets), h)
    {
      var count, expiresAt := BucketAt(buckets, h.key).count, BucketAt(buckets, h.key).expiresAt;
      if expiresAt <= h.now {
        count := 0;
        expiresAt := h.now + h.window;
      }
      count := count + 1;
      buckets := buckets[h.key := Bucket(count, expiresAt)];
      d := Decision(count <= h.max, Max(0, h.max - count), expiresAt);
    }
  }

  // ----- the Redis store -----

  /** A counter and the instant from which Redis treats the key as absent. */
  datatype Entry = Entry(count: int, expireAt: Option<int>)

  /** The entry a command finds at `now`. */
  function EntryAt(entries: map<string, Entry>, key: string, now: int): Option<Entry> {
    if key in entries && (entries[key].expireAt.None? || now < entries[key].expireAt.value) then Some(entries[key]) else None
  }

  class RedisStore {
    var entries: map<string, Entry>

    constructor ()
      ensures entries == map[]
    {
      entries := map[];
    }

    method Incr(key: string, now: int) returns (count: int)
      modifies this
      ensures var found := old(EntryAt(entries, key, now));
              entries == old(entries)[key := Entry(count, if found.Some? then found.value.expireAt else None)]
              && count == (if found.Some? then found.value.count else 0) + 1
    {
      var found := EntryAt(entries, key, now);
      count := (if found.Some? then found.value.count else 0) + 1;
      entries := entries[key := Entry(count, if found.Some? then found.value.expireAt else None)];
    }

    /** A period that is not positive deletes the key. */
    method Expire(key: string, seconds: int, now: int)
      requires key in entries
      modifies this
      ensures entries == if seconds <= 0 then old(entries) - {key}
                         else old(entries)[key := old(entries)[key].(expireAt := Some(now + seconds))]
    {
      if seconds <= 0 {
        entries := entries - {key};
      } else {
        entries := entries[key := entries[key].(expireAt := Some(now + seconds))];
      }
    }

    /** -2 for an absent key, -1 for one that never expires. */
    method Ttl(key: string, now: int) returns (ttl: int)
      ensures var found := EntryAt(entries, key, now);
              ttl == if found.None? then -2 else if found.value.expireAt.None? then -1 else found.value.expireAt.value - now
    {
      var found := EntryAt(entries, key, now);
      if found.None? {
        ttl := -2;
      } else if found.value.expireAt.None? {
        ttl := -1;
      } else {
        ttl := found.value.expireAt.value - now;
      }
    }

    method Hit(h: Hit) returns (d: Decision)
      modifies this
      ensures (entries, d) == RedisHit(old(entries), h)
    {
      var count := Incr(h.key, h.now);
      if count == 1 {
        Expire(h.key, h.window, h.now);
      }
      var ttl := Ttl(h.key, h.now);
      if ttl < 0 {
        ttl := h.window;
      }
      d := Decision(count <= h.max, Max(0, h.max - count), h.now + ttl);
      assert entries == RedisHit(old(entries), h).0;
    }
  }

  function ScriptEntry(found: Option<Entry>, window: int, now: int): Option<Entry> {
    if found.None? || found.value.count == 0 then if window <= 0 then None else Some(Entry(1, Some(now + window)))
    else Some(found.value.(count := found.value.count + 1))
  }

  function RedisHit(entries: map<string, Entry>, h: Hit): (map<string, Entry>, Decision) {
    var found := EntryAt(entries, h.key, h.now);
    var count := (if found.Some? then found.value.count else 0) + 1;
    var e := ScriptEntry(found, h.window, h.now);
    var ttl := if e.Some? && e.value.expireAt.Some? then e.value.expireAt.value - h.now else h.window;
    (if e.Some? then entries[h.key := e.value] else entries - {h.key},
     Decide(count, h.max, h.now + if ttl < 0 then h.window else ttl))
  }

  // ----- the two stores agree -----

  ghost predicate Ordered(hits: seq<Hit>) {
    && (forall i :: 0 <= i < |hits| ==> 0 <= hits[i].now)
    && (forall i, j :: 0 <= i < j < |hits| ==> hits[i].now <= hits[j].now)
  }

  function MemoryRun(hits: seq<Hit>): (map<string, Bucket>, seq<Decision>) {
    if hits == [] then (map[], [])
    else
      var before := MemoryRun(hits[..|hits| - 1]);
      var after := MemoryHit(before.0, hits[|hits| - 1]);
      (after.0, before.1 + [after.1])
  }

  function RedisRun(hits: seq<Hit>): (map<string, Entry>, seq<Decision>) {
    if hits == [] then (map[], [])
    else
      var before := RedisRun(hits[..|hits| - 1]);
      var after := RedisHit(before.0, hits[|hits| - 1]);
      (after.0, before.1 + [after.1])
  }

  /** What the stores know of a key from time `now` on: its bucket, unless that has run out. */
  predicate SameKey(buckets: map<string, Bucket>, entries: map<string, Entry>, key: string, now: int) {
    var b, e := BucketAt(buckets, key), EntryAt(entries, key, now);
    && (key in entries ==> entries[key].expireAt.Some?)
    && (b.expiresAt <= now <==> e.None?)
    && (e.Some? ==> e == Some(Entry(b.count, Some(b.expiresAt))) && b.count >= 1)
  }

  lemma {:induction false} HitAgrees(buckets: map<string, Bucket>, entries: map<string, Entry>, h: Hit, last: int)
    requires 0 <= last <= h.now
    requires forall key :: SameKey(buckets, entries, key, last)
    ensures MemoryHit(buckets, h).1 == RedisHit(entries, h).1
    ensures forall key :: SameKey(MemoryHit(buckets, h).0, RedisHit(entries, h).0, key, h.now)
  {
    forall key ensures SameKey(buckets, entries, key, h.now) {
      assert SameKey(buckets, entries, key, last);
    }
    assert SameKey(buckets, entries, h.key, h.now);
    forall key ensures SameKey(MemoryHit(buckets, h).0, RedisHit(entries, h).0, key, h.now) {
      assert SameKey(buckets, entries, key, h.now);
    }
  }

  lemma {:induction false} RunAgrees(hits: seq<Hit>, last: int)
    requires Ordered(hits) && 0 <= last && (hits != [] ==> last == hits[|hits| - 1].now)
    ensures MemoryRun(hits).1 == RedisRun(hits).1
    ensures forall key :: SameKey(MemoryRun(hits).0, RedisRun(hits).0, key, last)
    decreases |hits|
  {
    if hits != [] {
      var front := hits[..|hits| - 1];
      var before := if front == [] then 0 else front[|front| - 1].now;
      RunAgrees(front, before);
      HitAgrees(MemoryRun(front).0, RedisRun(front).0, hits[|hits| - 1], before);
    }
  }

  /**
  Main result: for any windows and maxima, on any keys in any interleaving, both stores
  give the same decisions to every sequence of hits at non-decreasing times.
  */
  lemma {:induction false} StoresAgree(hits: seq<Hit>)
    requires Ordered(hits)
    ensures MemoryRun(hits).1 == RedisRun(hits).1
  {
    RunAgrees(hits, if hits == [] then 0 else hits[|hits| - 1].now);
  }

  // ----- what each decision says -----

  function TimesOf(hits: seq<Hit>, key: string): seq<int> {
    if hits == [] then []
    else
      var last := hits[|hits| - 1];
      TimesOf(hits[..|hits| - 1], key) + if last.key == key then [last.now] else []
  }

  lemma {:induction false} DecidesEach(hits: seq<Hit>)
    ensures |MemoryRun(hits).1| == |hits|
  {
    if hits != [] { DecidesEach(hits[..|hits| - 1]); }
  }

  /** The decisions of either store. */
  predicate Decided(hits: seq<Hit>, decisions: seq<Decision>) {
    |decisions| == |hits| && (decisions == MemoryRun(hits).1 || decisions == RedisRun(hits).1)
  }

  /**
  Hit `k` opens the window of its key that is current at the end of the run: it comes when every
  earlier window has been reset, and the later hits on the key fall into its window.
  */
  ghost predicate Opened(hits: seq<Hit>, decisions: seq<Decision>, key: string, k: nat)
    requires |hits| == |decisions|
  {
    && k < |hits| && hits[k].key == key
    && (forall j :: 0 <= j < k && hits[j].key == key ==> decisions[j].resetAt <= hits[k].now)
    && (forall j :: k <= j < |hits| && hits[j].key == key ==> decisions[j].resetAt == hits[k].now + hits[k].window)
    && (forall j :: k < j < |hits| && hits[j].key == key ==> hits[j].now < hits[k].now + hits[k].window)
  }

  lemma {:induction false} NeverHit(hits: seq<Hit>, key: string)
    requires TimesOf(hits, key) == []
    ensures key !in MemoryRun(hits).0
    ensures forall j :: 0 <= j < |hits| ==> hits[j].key != key
  {
    if hits != [] { NeverHit(hits[..|hits| - 1], key); }
  }

  lemma {:induction false} TimesMore(hits: seq<Hit>, k: nat, key: string)
    requires k < |hits|
    ensures TimesOf(hits[k..], key) ==
            TimesOf(hits[..|hits| - 1][k..], key) + if hits[|hits| - 1].key == key then [hits[|hits| - 1].now] else []
  {
    var n := |hits| - 1;
    assert hits[k..][..n - k] == hits[..n][k..] && hits[k..][n - k] == hits[n];
  }

  lemma {:induction false} OpenedMore(hits: seq<Hit>, key: string, k: nat)
    requires hits != [] && |MemoryRun(hits).1| == |hits| && |MemoryRun(hits[..|hits| - 1]).1| == |hits| - 1
    requires Opened(hits[..|hits| - 1], MemoryRun(hits[..|hits| - 1]).1, key, k)
    requires var h, d := hits[|hits| - 1], MemoryRun(hits).1[|hits| - 1];
             h.key == key ==> d.resetAt == hits[k].now + hits[k].window && h.now < d.resetAt
    ensures Opened(hits, MemoryRun(hits).1, key, k)
  {
    var n := |hits| - 1;
    assert MemoryRun(hits).1[..n] == MemoryRun(hits[..n]).1;
  }

  lemma {:induction false} OpenedLast(hits: seq<Hit>, key: string, k: nat)
    requires Ordered(hits) && hits != [] && |MemoryRun(hits).1| == |hits| && |MemoryRun(hits[..|hits| - 1]).1| == |hits| - 1
    requires Opened(hits[..|hits| - 1], MemoryRun(hits[..|hits| - 1]).1, key, k)
    requires var h, d := hits[|hits| - 1], MemoryRun(hits).1[|hits| - 1];
             h.key == key && d.resetAt == h.now + h.window && hits[k].now + hits[k].window <= h.now
    ensures Opened(hits, MemoryRun(hits).1, key, |hits| - 1)
  {
    var n := |hits| - 1;
    assert MemoryRun(hits).1[..n] == MemoryRun(hits[..n]).1;
  }

  /** The bucket of the key counts the hits since hit `k`, which opened its window. */
  ghost predicate Counts(hits: seq<Hit>, key: string, k: nat) {
    && |MemoryRun(hits).1| == |hits| && Opened(hits, MemoryRun(hits).1, key, k)
    && BucketAt(MemoryRun(hits).0, key) == Bucket(|TimesOf(hits[k..], key)|, hits[k].now + hits[k].window)
  }

  lemma {:induction false} LastAlone(hits: seq<Hit>)
    requires hits != []
    ensures TimesOf(hits[|hits| - 1..], hits[|hits| - 1].key) == [hits[|hits| - 1].now]
  {
    var n := |hits| - 1;
    assert hits[n..] == [hits[n]] && [hits[n]][..0] == [];
  }

  lemma {:induction false} FirstCounts(hits: seq<Hit>, key: string)
    requires Ordered(hits) && hits != [] && hits[|hits| - 1].key == key && TimesOf(hits[..|hits| - 1], key) == []
    ensures Counts(hits, key, |hits| - 1)
  {
    DecidesEach(hits);
    NeverHit(hits[..|hits| - 1], key);
    LastAlone(hits);
  }

  lemma {:induction false} NewWindowCounts(hits: seq<Hit>, key: string, k: nat)
    requires Ordered(hits) && hits != [] && hits[|hits| - 1].key == key && Counts(hits[..|hits| - 1], key, k)
    requires hits[k].now + hits[k].window <= hits[|hits| - 1].now
    ensures Counts(hits, key, |hits| - 1)
  {
    DecidesEach(hits);
    OpenedLast(hits, key, k);
    LastAlone(hits);
  }

  lemma {:induction false} SameWindowCounts(hits: seq<Hit>, key: string, k: nat)
    requires Ordered(hits) && hits != [] && Counts(hits[..|hits| - 1], key, k)
    requires hits[|hits| - 1].key == key ==> hits[|hits| - 1].now < hits[k].now + hits[k].window
    ensures Counts(hits, key, k)
  {
    DecidesEach(hits);
    OpenedMore(hits, key, k);
    TimesMore(hits, k, key);
  }

  /** The bucket of a key counts the hits, allowed or not, since the one that opened its window. */
  lemma {:induction false} BucketCounts(hits: seq<Hit>, key: string) returns (k: nat)
    requires Ordered(hits) && TimesOf(hits, key) != []
    ensures Counts(hits, key, k)
  {
    var n := |hits| - 1;
    if TimesOf(hits[..n], key) == [] {
      FirstCounts(hits, key);
      k := n;
    } else {
      k := BucketCounts(hits[..n], key);
      if hits[n].key == key && hits[k].now + hits[k].window <= hits[n].now {
        NewWindowCounts(hits, key, k);
        k := n;
      } else {
        SameWindowCounts(hits, key, k);
      }
    }
  }

  /**
  Main result: what either store answers to a hit. There is one hit that opened the current
  window of the key; with `count` hits on the key since then, this one included, it is allowed
  exactly when `count` is at most the maximum, and the rest of the maximum remains.
  */
  lemma {:induction false} DecisionExactly(hits: seq<Hit>, decisions: seq<Decision>) returns (k: nat)
    requires Ordered(hits) && Decided(hits, decisions) && hits != []
    ensures Opened(hits, decisions, hits[|hits| - 1].key, k)
    ensures var h, d := hits[|hits| - 1], decisions[|hits| - 1];
            var count := |TimesOf(hits[k..], h.key)|;
            && (d.allowed <==> count <= h.max) && d.resetAt == hits[k].now + hits[k].window
            && d.remaining == if count <= h.max then h.max - count else 0
  {
    StoresAgree(hits);
    k := BucketCounts(hits, hits[|hits| - 1].key);
  }

  // ----- the bound on a trace -----

  /** The hits of one key that were allowed: their times, and the end of the window each fell in. */
  datatype Trace = Trace(bucket: Bucket, allowed: seq<int>, ends: seq<int>)

  function Extend(t: Trace, window: int, max: nat, now: int): Trace {
    var b := HitBucket(t.bucket, window, now);
    if b.count <= max then Trace(b, t.allowed + [now], t.ends + [b.expiresAt]) else t.(bucket := b)
  }

  function Play(times: seq<int>, window: int, max: nat): Trace {
    if times == [] then Trace(NEW_BUCKET, [], [])
    else
      Extend(Play(times[..|times| - 1], window, max), window, max, times[|times| - 1])
  }

  ghost predicate Rising(times: seq<int>) {
    && (forall i :: 0 <= i < |times| ==> 0 <= times[i])
    && (forall i, j :: 0 <= i < j < |times| ==> times[i] <= times[j])
  }

  /** How many of the allowed hits fell in the current window. */
  function Current(t: Trace, max: nat): int {
    if t.bucket.count <= max then t.bucket.count else max
  }

  /** The first allowed hit of a window opens it. */
  predicate Opens(allowed: seq<int>, ends: seq<int>, window: int, k: nat)
    requires k < |ends| == |allowed|
  {
    (k == 0 || ends[k - 1] != ends[k]) ==> allowed[k] == ends[k] - window
  }

  /** `max` allowed hits later a whole window has passed. */
  predicate PassesOn(ends: seq<int>, window: int, max: nat, k: nat) {
    k + max < |ends| ==> ends[k] <= ends[k + max] - window
  }

  /** Allowed hits, each with the end of the window it fell in. */
  ghost predicate Spaced(allowed: seq<int>, ends: seq<int>, window: int, max: nat)
    requires |allowed| == |ends|
  {
    && (forall k :: 0 <= k < |ends| ==> ends[k] - window <= allowed[k] < ends[k])
    && (forall k, m :: 0 <= k <= m < |ends| ==> ends[k] == ends[m] || ends[k] <= ends[m] - window)
    && (forall k :: 0 <= k < |ends| ==> Opens(allowed, ends, window, k))
    && (forall k :: 0 <= k < |ends| ==> PassesOn(ends, window, max, k))
  }

  lemma {:induction false} SpacedMore(allowed: seq<int>, ends: seq<int>, window: int, max: nat, now: int, end: int)
    requires max >= 1 && |allowed| == |ends| && Spaced(allowed, ends, window, max)
    requires end - window <= now < end
    requires forall k :: 0 <= k < |ends| ==> ends[k] == end || ends[k] <= end - window
    requires ends == [] || ends[|ends| - 1] != end ==> now == end - window
    requires |ends| >= max ==> ends[|ends| - max] <= end - window
    ensures Spaced(allowed + [now], ends + [end], window, max)
  {
    forall k | 0 <= k < |ends| + 1 ensures Opens(allowed + [now], ends + [end], window, k) {
      if k < |ends| { assert Opens(allowed, ends, window, k); }
    }
    forall k | 0 <= k < |ends| + 1 ensures PassesOn(ends + [end], window, max, k) {
      if k < |ends| { assert PassesOn(ends, window, max, k); }
    }
  }

  /** The last `Current` allowed hits are those of the bucket's own window. */
  ghost predicate InBucket(t: Trace, window: int, max: nat)
    requires max >= 1
  {
    var n := |t.ends|;
    && 0 <= Current(t, max) <= n
    && (forall k :: n - Current(t, max) <= k < n ==> t.ends[k] == t.bucket.expiresAt)
    && (forall k :: 0 <= k < n && k < n - Current(t, max) ==> t.ends[k] <= t.bucket.expiresAt - window)
  }

  ghost predicate Holds(t: Trace, window: int, max: nat, now: int)
    requires max >= 1
  {
    && |t.allowed| == |t.ends| && 0 <= t.bucket.count
    && (t.bucket.count > 0 ==> t.bucket.expiresAt - window <= now)
    && (t.bucket.count == 0 ==> t.bucket.expiresAt == 0)
    && Spaced(t.allowed, t.ends, window, max)
    && InBucket(t, window, max)
  }

  lemma {:induction false} EndsInBucket(t: Trace, window: int, max: nat, k: nat)
    requires window >= 1 && max >= 1 && InBucket(t, window, max) && k < |t.ends|
    ensures t.ends[k] <= t.bucket.expiresAt
  {
  }

  lemma {:induction false} OpenWindow(allowed: seq<int>, ends: seq<int>, window: int, max: nat, now: int)
    requires window >= 1 && max >= 1 && |allowed| == |ends| && Spaced(allowed, ends, window, max)
    requires forall k :: 0 <= k < |ends| ==> ends[k] <= now
    ensures Spaced(allowed + [now], ends + [now + window], window, max)
    ensures InBucket(Trace(Bucket(1, now + window), allowed + [now], ends + [now + window]), window, max)
  {
    assert |ends| >= max ==> ends[|ends| - max] <= now;
    SpacedMore(allowed, ends, window, max, now, now + window);
  }

  lemma {:induction false} NewWindowHolds(t: Trace, window: int, max: nat, last: int, now: int)
    requires window >= 1 && max >= 1 && 0 <= last <= now && Holds(t, window, max, last) && t.bucket.expiresAt <= now
    ensures Holds(Extend(t, window, max, now), window, max, now)
  {
    forall k | 0 <= k < |t.ends| ensures t.ends[k] <= now { EndsInBucket(t, window, max, k); }
    OpenWindow(t.allowed, t.ends, window, max, now);
    assert Extend(t, window, max, now) == Trace(Bucket(1, now + window), t.allowed + [now], t.ends + [now + window]);
  }

  lemma {:induction false} SameWindowHolds(t: Trace, window: int, max: nat, last: int, now: int)
    requires window >= 1 && max >= 1 && 0 <= last <= now && Holds(t, window, max, last) && now < t.bucket.expiresAt
    ensures Holds(Extend(t, window, max, now), window, max, now)
  {
    if t.bucket.count < max {
      assert t.ends[|t.ends| - 1] == t.bucket.expiresAt;
      SpacedMore(t.allowed, t.ends, window, max, now, t.bucket.expiresAt);
    }
  }

  lemma {:induction false} PlayHolds(times: seq<int>, window: int, max: nat, last: int)
    requires window >= 1 && max >= 1 && Rising(times) && 0 <= last && (times != [] ==> last == times[|times| - 1])
    ensures Holds(Play(times, window, max), window, max, last)
    decreases |times|
  {
    if times != [] {
      var front := times[..|times| - 1];
      var before := if front == [] then 0 else front[|front| - 1];
      PlayHolds(front, window, max, before);
      var t := Play(front, window, max);
      if t.bucket.expiresAt <= last {
        NewWindowHolds(t, window, max, before, last);
      } else {
        SameWindowHolds(t, window, max, before, last);
      }
    }
  }

  /** `max` allowed hits further on, a whole window has passed. */
  lemma {:induction false} LaterWindow(t: Trace, window: int, max: nat, now: int, i: nat, j: nat)
    requires window >= 1 && max >= 1 && Holds(t, window, max, now)
    requires i + max <= j < |t.ends|
    ensures t.ends[i] <= t.ends[j] - window
  {
    assert PassesOn(t.ends, window, max, i);
    assert t.ends[i + max] <= t.ends[j];
  }

  lemma {:induction false} WindowHolds(times: seq<int>, window: int, max: nat, i: nat, j: nat)
    requires window >= 1 && max >= 1 && Rising(times)
    requires i <= j < |Play(times, window, max).ends| && Play(times, window, max).ends[i] == Play(times, window, max).ends[j]
    ensures j - i + 1 <= max
  {
    var now := if times == [] then 0 else times[|times| - 1];
    PlayHolds(times, window, max, now);
    if i + max <= j {
      LaterWindow(Play(times, window, max), window, max, now, i, j);
    }
  }

  /** The most hits allowed in a stretch shorter than the window. */
  function Most(window: int, max: int): int {
    if max < 1 then 0 else if window <= 1 then max else 2 * max - 1
  }

  lemma {:induction false} StretchHolds(times: seq<int>, window: int, max: nat, i: nat, j: nat)
    requires window >= 1 && max >= 1 && Rising(times)
    requires i <= j < |Play(times, window, max).allowed| == |Play(times, window, max).ends|
    requires Play(times, window, max).allowed[j] - Play(times, window, max).allowed[i] < window
    ensures j - i + 1 <= 2 * max - 1
  {
    var now := if times == [] then 0 else times[|times| - 1];
    PlayHolds(times, window, max, now);
    var t := Play(times, window, max);
    // The first hit of a window opens it, so a hit that is not the first has a predecessor in the same window.
    var first := if t.allowed[i] == t.ends[i] - window then i else i - 1;
    assert Opens(t.allowed, t.ends, window, i);
    assert t.ends[first] == t.ends[i];
    if j >= i + 2 * max - 1 {
      LaterWindow(t, window, max, now, first, first + max);
      if first == i {
        LaterWindow(t, window, max, now, i, j);
      } else {
        LaterWindow(t, window, max, now, first + max, j);
      }
    }
  }

  /** In a window of one second, hits less than a second apart are in one window. */
  lemma {:induction false} SecondHolds(times: seq<int>, max: nat, i: nat, j: nat)
    requires max >= 1 && Rising(times)
    requires i <= j < |Play(times, 1, max).allowed| == |Play(times, 1, max).ends|
    requires Play(times, 1, max).allowed[j] - Play(times, 1, max).allowed[i] < 1
    ensures j - i + 1 <= max
  {
    var t := Play(times, 1, max);
    PlayHolds(times, 1, max, if times == [] then 0 else times[|times| - 1]);
    assert t.allowed[i] == t.ends[i] - 1 && t.allowed[j] == t.ends[j] - 1;
    WindowHolds(times, 1, max, i, j);
  }

  // ----- one key in a run of a store -----

  /** The times of the hits on a key that the decisions allow. */
  function AllowedOf(hits: seq<Hit>, decisions: seq<Decision>, key: string): seq<int>
    requires |hits| == |decisions|
  {
    if hits == [] then []
    else
      var n := |hits| - 1;
      AllowedOf(hits[..n], decisions[..n], key) + if hits[n].key == key && decisions[n].allowed then [hits[n].now] else []
  }

  /** The reset times that those decisions announce. */
  function ResetsOf(hits: seq<Hit>, decisions: seq<Decision>, key: string): seq<int>
    requires |hits| == |decisions|
  {
    if hits == [] then []
    else
      var n := |hits| - 1;
      ResetsOf(hits[..n], decisions[..n], key) + if hits[n].key == key && decisions[n].allowed then [decisions[n].resetAt] else []
  }

  /** Every hit on the key asks for the same window and maximum. */
  ghost predicate Fixed(hits: seq<Hit>, key: string, window: int, max: int) {
    forall i :: 0 <= i < |hits| && hits[i].key == key ==> hits[i].window == window && hits[i].max == max
  }

  /** Hits on other keys leave a key alone: what a run does to it is the play of its own times. */
  lemma {:induction false} RunIsPlay(hits: seq<Hit>, key: string, window: int, max: nat)
    requires Fixed(hits, key, window, max)
    ensures |MemoryRun(hits).1| == |hits|
    ensures var t := Play(TimesOf(hits, key), window, max);
            && BucketAt(MemoryRun(hits).0, key) == t.bucket
            && AllowedOf(hits, MemoryRun(hits).1, key) == t.allowed
            && ResetsOf(hits, MemoryRun(hits).1, key) == t.ends
  {
    if hits != [] {
      var n := |hits| - 1;
      RunIsPlay(hits[..n], key, window, max);
      var before, times := MemoryRun(hits[..n]), TimesOf(hits[..n], key);
      assert MemoryRun(hits).1[..n] == before.1;
      if hits[n].key == key {
        assert (times + [hits[n].now])[..|times|] == times;
      } else {
        assert times + [] == times && Play(times, window, max).allowed + [] == Play(times, window, max).allowed;
        assert Play(times, window, max).ends + [] == Play(times, window, max).ends;
      }
    }
  }

  lemma {:induction false} TimesRise(hits: seq<Hit>, key: string)
    requires Ordered(hits)
    ensures Rising(TimesOf(hits, key))
    ensures forall k :: 0 <= k < |TimesOf(hits, key)| ==> TimesOf(hits, key)[k] <= hits[|hits| - 1].now
  {
    if hits != [] { TimesRise(hits[..|hits| - 1], key); }
  }

  lemma {:induction false} CountsArePositive(hits: seq<Hit>, key: string)
    ensures key in MemoryRun(hits).0 ==> MemoryRun(hits).0[key].count >= 1
  {
    if hits != [] {
      CountsArePositive(hits[..|hits| - 1], key);
      CountsArePositive(hits[..|hits| - 1], hits[|hits| - 1].key);
    }
  }

  lemma {:induction false} NothingAllowed(hits: seq<Hit>, key: string, window: int, max: int)
    requires Fixed(hits, key, window, max) && max < 1
    ensures |MemoryRun(hits).1| == |hits| && AllowedOf(hits, MemoryRun(hits).1, key) == []
  {
    if hits != [] {
      var n := |hits| - 1;
      NothingAllowed(hits[..n], key, window, max);
      CountsArePositive(hits[..n], hits[n].key);
      assert MemoryRun(hits).1[..n] == MemoryRun(hits[..n]).1;
    }
  }

  /**
  At most `max` hits on a key are allowed in one window of its counter, which the announced
  reset time identifies, in any run of either store with any other keys in between.
  */
  lemma {:induction false} WindowBound(hits: seq<Hit>, decisions: seq<Decision>, key: string, window: int, max: nat, i: nat, j: nat)
    requires Ordered(hits) && Decided(hits, decisions) && Fixed(hits, key, window, max) && window >= 1 && max >= 1
    requires i <= j < |ResetsOf(hits, decisions, key)| && ResetsOf(hits, decisions, key)[i] == ResetsOf(hits, decisions, key)[j]
    ensures j - i + 1 <= max
  {
    StoresAgree(hits);
    RunIsPlay(hits, key, window, max);
    TimesRise(hits, key);
    WindowHolds(TimesOf(hits, key), window, max, i, j);
  }

  /**
  Main result: in any run of either store, with any other keys in between, a stretch of time
  shorter than the window holds at most `2 * max - 1` allowed hits on a key wherever it
  starts, and at most `max` when the window is one second.
  */
  lemma {:induction false} SlidingBound(hits: seq<Hit>, decisions: seq<Decision>, key: string, window: int, max: int, i: nat, j: nat)
    requires Ordered(hits) && Decided(hits, decisions) && Fixed(hits, key, window, max) && window >= 1
    requires i <= j < |AllowedOf(hits, decisions, key)|
    requires AllowedOf(hits, decisions, key)[j] - AllowedOf(hits, decisions, key)[i] < window
    ensures j - i + 1 <= Most(window, max)
  {
    StoresAgree(hits);
    if max < 1 {
      NothingAllowed(hits, key, window, max);
    } else {
      RunIsPlay(hits, key, window, max);
      TimesRise(hits, key);
      var times := TimesOf(hits, key);
      PlayHolds(times, window, max, if times == [] then 0 else times[|times| - 1]);
      if window == 1 { SecondHolds(times, max, i, j); } else { StretchHolds(times, window, max, i, j); }
    }
  }

  // ----- the bound is attained -----

  function Same(n: nat, now: int): seq<int> {
    seq(n, _ => now)
  }

  /** While a window has room, hits in it are allowed. */
  lemma {:induction false} RoomAllows(times: seq<int>, window: int, max: nat, n: nat, now: int)
    requires var b := Play(times, window, max).bucket; now < b.expiresAt && b.count + n <= max
    ensures var before, t := Play(times, window, max), Play(times + Same(n, now), window, max);
            && t.bucket == before.bucket.(count := before.bucket.count + n)
            && t.allowed == before.allowed + Same(n, now)
  {
    if n == 0 {
      assert times + Same(0, now) == times;
    } else {
      RoomAllows(times, window, max, n - 1, now);
      var front := times + Same(n - 1, now);
      var all := times + Same(n, now);
      assert all[..|all| - 1] == front && all[|all| - 1] == now;
      assert Play(all, window, max) == Extend(Play(front, window, max), window, max, now);
    }
  }

  /** Hits just before and just after a window ends: `2 * max - 1` are allowed within one second. */
  function Straddle(window: int, max: nat): seq<int>
    requires max >= 1
  {
    [0] + Same(max - 1, window - 1) + [window] + Same(max - 1, window)
  }

  lemma {:induction false} OneHit(times: seq<int>, window: int, max: nat, now: int)
    requires Play(times, window, max).bucket.expiresAt <= now && max >= 1
    ensures var before, t := Play(times, window, max), Play(times + [now], window, max);
            t.bucket == Bucket(1, now + window) && t.allowed == before.allowed + [now]
  {
    assert (times + [now])[..|times|] == times;
  }

  lemma {:induction false} FirstWindowFills(window: int, max: nat)
    requires window >= 1 && max >= 1
    ensures var t := Play([0] + Same(max - 1, window - 1), window, max);
            t.bucket == Bucket(max, window) && t.allowed == [0] + Same(max - 1, window - 1)
  {
    OneHit([], window, max, 0);
    assert [] + [0] == [0];
    RoomAllows([0], window, max, max - 1, window - 1);
  }

  lemma {:induction false} StraddleIsAllowed(window: int, max: nat)
    requires window >= 2 && max >= 1
    ensures Play(Straddle(window, max), window, max).allowed == Straddle(window, max)
  {
    FirstWindowFills(window, max);
    var full := [0] + Same(max - 1, window - 1);
    OneHit(full, window, max, window);
    RoomAllows(full + [window], window, max, max - 1, window);
  }

  function HitsAt(times: seq<int>, key: string, window: int, max: int): (hits: seq<Hit>)
    ensures |hits| == |times|
    ensures forall i :: 0 <= i < |times| ==> hits[i] == Hit(key, window, max, times[i])
  {
    seq(|times|, i requires 0 <= i < |times| => Hit(key, window, max, times[i]))
  }

  lemma {:induction false} HitsHaveTimes(times: seq<int>, key: string, window: int, max: int)
    ensures TimesOf(HitsAt(times, key, window, max), key) == times
  {
    if times != [] {
      var n := |times| - 1;
      HitsHaveTimes(times[..n], key, window, max);
      assert HitsAt(times, key, window, max)[..n] == HitsAt(times[..n], key, window, max);
    }
  }

  /** A trace that attains the bound, and the place of the stretch in it. */
  function Worst(window: int, max: nat): seq<int>
    requires max >= 1
  {
    if window == 1 then [0] + Same(max - 1, window - 1) else Straddle(window, max)
  }

  lemma {:induction false} WorstIsAllowed(window: int, max: nat)
    requires window >= 1 && max >= 1
    ensures Play(Worst(window, max), window, max).allowed == Worst(window, max)
  {
    if window == 1 { FirstWindowFills(window, max); } else { StraddleIsAllowed(window, max); }
  }

  /** The stretch that attains the bound is the whole trace, but for the first hit of a longer window. */
  lemma {:induction false} WorstStretch(window: int, max: nat) returns (i: nat, j: nat)
    requires window >= 1 && max >= 1
    ensures Rising(Worst(window, max))
    ensures i <= j < |Worst(window, max)| && j - i + 1 == Most(window, max)
    ensures Worst(window, max)[j] - Worst(window, max)[i] < window && Worst(window, max)[j] - Worst(window, max)[i] <= 1
  {
    if window == 1 { i, j := 0, max - 1; } else { i, j := 1, 2 * max - 1; }
  }

  lemma {:induction false} HitsAreOrdered(times: seq<int>, key: string, window: int, max: int)
    requires Rising(times)
    ensures Ordered(HitsAt(times, key, window, max)) && Fixed(HitsAt(times, key, window, max), key, window, max)
  {
  }

  /** Times that are all allowed are allowed in a run of the store. */
  lemma {:induction false} AllAllowed(times: seq<int>, key: string, window: int, max: nat)
    requires Play(times, window, max).allowed == times
    requires Fixed(HitsAt(times, key, window, max), key, window, max)
    ensures var hits := HitsAt(times, key, window, max);
            |MemoryRun(hits).1| == |hits| && AllowedOf(hits, MemoryRun(hits).1, key) == times
  {
    HitsHaveTimes(times, key, window, max);
    RunIsPlay(HitsAt(times, key, window, max), key, window, max);
  }

  /** The bound is sharp: for every window and maximum some run attains it, within one second. */
  lemma {:induction false} BoundIsAttained(key: string, window: int, max: nat) returns (hits: seq<Hit>, i: nat, j: nat)
    requires window >= 1 && max >= 1
    ensures Ordered(hits) && Fixed(hits, key, window, max) && |MemoryRun(hits).1| == |hits|
    ensures i <= j < |AllowedOf(hits, MemoryRun(hits).1, key)| && j - i + 1 == Most(window, max)
    ensures var allowed := AllowedOf(hits, MemoryRun(hits).1, key);
            allowed[j] - allowed[i] < window && allowed[j] - allowed[i] <= 1
  {
    var times := Worst(window, max);
    hits := HitsAt(times, key, window, max);
    WorstIsAllowed(window, max);
    i, j := WorstStretch(window, max);
    HitsAreOrdered(times, key, window, max);
    AllAllowed(times, key, window, max);
  }
}
