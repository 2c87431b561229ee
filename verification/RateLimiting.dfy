/** The fixed-window rate limiter of pkg/accesspolicy/access_policy.go: one bucket per client key, lazy
    pruning, and one overflow bucket shared by every new client once the table is full. Times are
    nanoseconds on one axis; 0 stands for Go's zero `time.Time`. */
module RateLimiting {
  import opened Sequences
  import opened Text

  const PRUNE_THRESHOLD := 1024
  const PRUNE_INTERVAL := 1_000_000_000
  const MAX_BUCKETS := 65536
  const OVERFLOW_KEY: string := "\U{0}overflow"

  datatype Spec = Spec(limit: int, window: int) {
    predicate Usable() { limit > 0 && window > 0 }
  }
  datatype Bucket = Bucket(windowStart: int, count: nat)
  datatype Table = Table(buckets: map<string, Bucket>, lastPrune: int)
  datatype Request = Request(key: string, now: int)

  const EMPTY := Table(map[], 0)

  function ClientKey(key: string): string {
    var trimmed := TrimSpace(key);
    if trimmed == "" then "unknown" else trimmed
  }

  predicate PruneDue(t: Table, now: int) {
    |t.buckets| > PRUNE_THRESHOLD && (t.lastPrune == 0 || now - t.lastPrune >= PRUNE_INTERVAL)
  }

  function Pruned(spec: Spec, t: Table, now: int): Table {
    if PruneDue(t, now)
    then Table(map k | k in t.buckets && now - t.buckets[k].windowStart < 2 * spec.window :: t.buckets[k], now)
    else t
  }

  function BucketOf(t: Table, key: string): Bucket {
    if key in t.buckets then t.buckets[key] else Bucket(0, 0)
  }

  /** One more request in a bucket, which restarts when its window is over. */
  function Touched(spec: Spec, b: Bucket, now: int): Bucket {
    if b.windowStart == 0 || now - b.windowStart >= spec.window || now < b.windowStart
    then Bucket(now, 1)
    else Bucket(b.windowStart, b.count + 1)
  }

  /** The bucket a request is charged to, in the table as pruning left it. */
  function ChargedKey(pruned: Table, key: string): string {
    if key !in pruned.buckets && |pruned.buckets| >= MAX_BUCKETS - 1 then OVERFLOW_KEY else key
  }

  function Charge(spec: Spec, t: Table, r: Request): string {
    ChargedKey(Pruned(spec, t, r.now), ClientKey(r.key))
  }

  function NewBucket(spec: Spec, t: Table, r: Request): Bucket {
    Touched(spec, BucketOf(Pruned(spec, t, r.now), Charge(spec, t, r)), r.now)
  }

  function Step(spec: Spec, t: Table, r: Request): Table {
    var p := Pruned(spec, t, r.now);
    p.(buckets := p.buckets[Charge(spec, t, r) := NewBucket(spec, t, r)])
  }

  predicate Granted(spec: Spec, t: Table, r: Request) {
    NewBucket(spec, t, r).count <= spec.limit
  }

  /** `RateLimiter`: the table is rewritten in place by every request. */
  class RateLimiter {
    const spec: Spec
    var buckets: map<string, Bucket>
    var lastPrune: int

    ghost function Contents(): Table
      reads this
    {
      Table(buckets, lastPrune)
    }

    constructor (spec: Spec)
      ensures this.spec == spec && Contents() == EMPTY
    {
      this.spec := spec;
      buckets, lastPrune := map[], 0;
    }

    method Prune(now: int)
      modifies this
      ensures Contents() == Pruned(spec, old(Contents()), now)
    {
      if |buckets| <= PRUNE_THRESHOLD {
        return;
      }
      if lastPrune != 0 && now - lastPrune < PRUNE_INTERVAL {
        return;
      }
      lastPrune := now;
      ghost var before := buckets;
      var todo := buckets.Keys;
      while todo != {}
        invariant todo <= before.Keys && lastPrune == now
        invariant buckets.Keys <= before.Keys
        invariant forall k | k in before ::
          (k in buckets <==> k in todo || now - before[k].windowStart < 2 * spec.window)
          && (k in buckets ==> buckets[k] == before[k])
        decreases todo
      {
        var key :| key in todo;
        if now - buckets[key].windowStart >= 2 * spec.window {
          buckets := buckets - {key};
        }
        todo := todo - {key};
      }
    }

    method AllowLocked(key: string, now: int) returns (ok: bool)
      modifies this
      ensures Contents() == Step(spec, old(Contents()), Request(key, now))
      ensures ok == Granted(spec, old(Contents()), Request(key, now))
    {
      var charged := ClientKey(key);
      Prune(now);
      var bucket := if charged in buckets then buckets[charged] else Bucket(0, 0);
      if charged !in buckets && |buckets| >= MAX_BUCKETS - 1 {
        charged := OVERFLOW_KEY;
        bucket := if charged in buckets then buckets[charged] else Bucket(0, 0);
      }
      if bucket.windowStart == 0 || now - bucket.windowStart >= spec.window || now < bucket.windowStart {
        bucket := Bucket(now, 0);
      }
      bucket := Bucket(bucket.windowStart, bucket.count + 1);
      buckets := buckets[charged := bucket];
      ok := bucket.count <= spec.limit;
    }
  }

  /** A limiter exists only for a usable spec. */
  method NewRateLimiter(spec: Spec) returns (l: RateLimiter?)
    ensures l == null <==> spec.limit <= 0 || spec.window <= 0
    ensures l != null ==> fresh(l) && l.spec == spec && l.Contents() == EMPTY
  {
    if spec.limit <= 0 || spec.window <= 0 {
      return null;
    }
    l := new RateLimiter(spec);
  }

  /** A missing limiter allows everything; a zero time is replaced by the clock. */
  method Allow(l: RateLimiter?, key: string, now: int, clock: int) returns (ok: bool)
    modifies if l == null then {} else {l}
    ensures l == null ==> ok
    ensures l != null ==>
      var r := Request(key, if now == 0 then clock else now);
      l.Contents() == Step(l.spec, old(l.Contents()), r) && ok == Granted(l.spec, old(l.Contents()), r)
  {
    if l == null {
      return true;
    }
    ok := l.AllowLocked(key, if now == 0 then clock else now);
  }

  // ---- whole request sequences ----

  /** The table of a new limiter after a sequence of requests. */
  function After(spec: Spec, reqs: seq<Request>): Table {
    if reqs == [] then EMPTY else Step(spec, After(spec, Init(reqs)), Last(reqs))
  }

  /** Real times, never going back. */
  predicate Chronological(reqs: seq<Request>) {
    (forall i | 0 <= i < |reqs| :: reqs[i].now != 0)
    && forall i, j | 0 <= i < j < |reqs| :: reqs[i].now <= reqs[j].now
  }

  /** How many requests were granted at times in [from, from + window), counting only the given client
      and only the given charged bucket when one is named. */
  function Tally(spec: Spec, reqs: seq<Request>, from: int, client: Option<string>, bucket: Option<string>): nat {
    if reqs == [] then 0
    else
      var (t, r) := (After(spec, Init(reqs)), Last(reqs));
      var counts :=
        Granted(spec, t, r) && from <= r.now < from + spec.window
        && (client.Some? ==> ClientKey(r.key) == client.value)
        && (bucket.Some? ==> Charge(spec, t, r) == bucket.value);
      Tally(spec, Init(reqs), from, client, bucket) + if counts then 1 else 0
  }

  function Min(a: int, b: int): int { if a < b then a else b }

  /** What one bucket has granted in the interval, given where its current window stands. */
  ghost predicate BucketLedger(spec: Spec, reqs: seq<Request>, from: int, key: string) {
    var t, c := After(spec, reqs), Tally(spec, reqs, from, None, Some(key));
    && (reqs == [] || Last(reqs).now < from ==> c == 0)
    && c <= 2 * spec.limit - 1
    && (if key in t.buckets then
          var b := t.buckets[key];
          && reqs != [] && b.windowStart != 0 && b.windowStart <= Last(reqs).now
          && (b.windowStart + spec.window <= from ==> c == 0)
          && b.count >= 1
          && (b.windowStart < from ==> c <= Min(spec.limit, b.count) - 1)
          && (from <= b.windowStart < from + spec.window ==> c <= spec.limit - 1 + Min(spec.limit, b.count))
        else
          reqs == [] || Last(reqs).now < from + spec.window ==> c == 0)
  }

  lemma ChronologicalInit(reqs: seq<Request>)
    requires reqs != [] && Chronological(reqs)
    ensures Chronological(Init(reqs)) && Last(reqs).now != 0
    ensures Init(reqs) != [] ==> Last(Init(reqs)).now <= Last(reqs).now
  {}

  /** One bucket grants at most 2 * limit - 1 requests in any interval of one window: a live bucket is never
      pruned within two windows, so its windows start at least one window apart, and the first of two
      windows meeting the interval spent a grant on its own start, before the interval. */
  lemma {:induction false} BucketBound(spec: Spec, reqs: seq<Request>, from: int, key: string)
    requires spec.Usable() && Chronological(reqs)
    ensures BucketLedger(spec, reqs, from, key)
    decreases |reqs|
  {
    if reqs != [] {
      ChronologicalInit(reqs);
      BucketBound(spec, Init(reqs), from, key);
    }
  }

  /** A client's grants split between its own bucket and the overflow bucket, and never exceed what those
      buckets granted to everybody. */
  lemma {:induction false} TallySplit(spec: Spec, reqs: seq<Request>, from: int, key: string)
    ensures var own := Tally(spec, reqs, from, Some(key), Some(key));
            var over := Tally(spec, reqs, from, Some(key), Some(OVERFLOW_KEY));
      && Tally(spec, reqs, from, Some(key), None) == (if key == OVERFLOW_KEY then own else own + over)
      && own <= Tally(spec, reqs, from, None, Some(key))
      && over <= Tally(spec, reqs, from, None, Some(OVERFLOW_KEY))
    decreases |reqs|
  {
    if reqs != [] {
      TallySplit(spec, Init(reqs), from, key);
    }
  }

  /** Once a client was served from the overflow bucket inside the interval, its own bucket can only have
      started after that, so it has opened at most one window there. */
  ghost predicate MixedLedger(spec: Spec, reqs: seq<Request>, from: int, key: string) {
    var t := After(spec, reqs);
    var own := Tally(spec, reqs, from, Some(key), Some(key));
    Tally(spec, reqs, from, Some(key), Some(OVERFLOW_KEY)) > 0 ==>
      && own <= spec.limit
      && reqs != [] && Last(reqs).now >= from
      && (key in t.buckets ==>
            var b := t.buckets[key];
            b.windowStart < from + spec.window ==> from <= b.windowStart && own <= Min(spec.limit, b.count))
  }

  lemma {:induction false} MixedBound(spec: Spec, reqs: seq<Request>, from: int, key: string)
    requires spec.Usable() && Chronological(reqs) && key != OVERFLOW_KEY
    ensures MixedLedger(spec, reqs, from, key)
    decreases |reqs|
  {
    if reqs != [] {
      ChronologicalInit(reqs);
      MixedBound(spec, Init(reqs), from, key);
      BucketBound(spec, Init(reqs), from, key);
      TallySplit(spec, Init(reqs), from, key);
      if Charge(spec, After(spec, Init(reqs)), Last(reqs)) == key {
        assert key in After(spec, reqs).buckets;
      }
    }
  }

  /** In every half-open interval of one window a client is granted fewer than three times the limit, and
      fewer than twice the limit when none of those grants came from the shared overflow bucket. */
  lemma RateBound(spec: Spec, reqs: seq<Request>, from: int, key: string)
    requires spec.Usable() && Chronological(reqs)
    ensures Tally(spec, reqs, from, Some(key), None) <= 3 * spec.limit - 1
    ensures key == OVERFLOW_KEY || Tally(spec, reqs, from, Some(key), Some(OVERFLOW_KEY)) == 0
            ==> Tally(spec, reqs, from, Some(key), None) <= 2 * spec.limit - 1
  {
    TallySplit(spec, reqs, from, key);
    BucketBound(spec, reqs, from, key);
    BucketBound(spec, reqs, from, OVERFLOW_KEY);
    if key != OVERFLOW_KEY {
      MixedBound(spec, reqs, from, key);
    }
  }

  /** A single client asking at the given times: its bucket and its grants from `from` on. */
  function Play(spec: Spec, times: seq<int>, from: int): (Bucket, int) {
    if times == [] then (Bucket(0, 0), 0)
    else
      var (b, granted) := Play(spec, Init(times), from);
      var now := Last(times);
      var next := Touched(spec, b, now);
      (next, granted + if next.count <= spec.limit && from <= now < from + spec.window then 1 else 0)
  }

  function Asks(times: seq<int>): (reqs: seq<Request>)
    ensures |reqs| == |times| && forall i | 0 <= i < |reqs| :: reqs[i] == Request("k", times[i])
  {
    seq(|times|, i requires 0 <= i < |times| => Request("k", times[i]))
  }

  lemma LoneStep(spec: Spec, t: Table, b: Bucket, r: Request)
    requires r.key == "k" && ((t == EMPTY && b == Bucket(0, 0)) || t == Table(map["k" := b], 0))
    ensures Step(spec, t, r) == Table(map["k" := Touched(spec, b, r.now)], 0)
    ensures Granted(spec, t, r) <==> Touched(spec, b, r.now).count <= spec.limit
    ensures ClientKey(r.key) == "k"
  {
    assert ClientKey("k") == "k";
    assert map["k" := b]["k" := Touched(spec, b, r.now)] == map["k" := Touched(spec, b, r.now)];
  }

  /** The limiter serves a lone client as `Play` says. */
  lemma {:induction false} PlayIsTally(spec: Spec, times: seq<int>, from: int)
    ensures After(spec, Asks(times)) == if times == [] then EMPTY else Table(map["k" := Play(spec, times, from).0], 0)
    ensures Tally(spec, Asks(times), from, Some("k"), None) == Play(spec, times, from).1
    decreases |times|
  {
    if times != [] {
      PlayIsTally(spec, Init(times), from);
      var r := Request("k", Last(times));
      assert Init(Asks(times)) == Asks(Init(times)) && Last(Asks(times)) == r;
      LoneStep(spec, After(spec, Asks(Init(times))), Play(spec, Init(times), from).0, r);
    }
  }

  function Again(now: int, n: nat): seq<int> {
    seq(n, _ => now)
  }

  /** Asking n more times in a live window fills the bucket by n, all of them granted. */
  lemma {:induction false} FillUp(spec: Spec, times: seq<int>, from: int, now: int, n: nat)
    requires var b := Play(spec, times, from).0;
      0 < b.windowStart <= now < b.windowStart + spec.window && b.count + n <= spec.limit
    requires from <= now < from + spec.window
    ensures var (b, granted) := Play(spec, times, from);
      Play(spec, times + Again(now, n), from) == (Bucket(b.windowStart, b.count + n), granted + n)
    decreases n
  {
    if n == 0 {
      assert times + Again(now, 0) == times;
    } else {
      FillUp(spec, times, from, now, n - 1);
      assert Init(times + Again(now, n)) == times + Again(now, n - 1);
    }
  }

  lemma PlayNext(spec: Spec, times: seq<int>, from: int, now: int)
    ensures var (b, granted) := Play(spec, times, from);
      var next := Touched(spec, b, now);
      Play(spec, times + [now], from) ==
        (next, granted + if next.count <= spec.limit && from <= now < from + spec.window then 1 else 0)
  {
    assert Init(times + [now]) == times;
  }

  /** One early request, the rest of its window at its last tick. */
  function FirstWindow(spec: Spec): seq<int>
    requires spec.Usable()
  {
    [1] + Again(spec.window, spec.limit - 1)
  }

  lemma FirstWindowPlays(spec: Spec)
    requires spec.Usable() && spec.window >= 2
    ensures Play(spec, FirstWindow(spec), spec.window) == (Bucket(1, spec.limit), spec.limit - 1)
  {
    PlayNext(spec, [], spec.window, 1);
    assert [] + [1] == [1];
    FillUp(spec, [1], spec.window, spec.window, spec.limit - 1);
  }

  /** And the whole next window right after. */
  lemma BothWindowsPlay(spec: Spec, full: seq<int>)
    requires spec.Usable() && spec.window >= 2
    requires Play(spec, full, spec.window) == (Bucket(1, spec.limit), spec.limit - 1)
    ensures Play(spec, full + [spec.window + 1] + Again(spec.window + 1, spec.limit - 1), spec.window).1
            == 2 * spec.limit - 1
  {
    PlayNext(spec, full, spec.window, spec.window + 1);
    FillUp(spec, full + [spec.window + 1], spec.window, spec.window + 1, spec.limit - 1);
  }

  predicate InOrder(times: seq<int>) {
    (forall i | 0 <= i < |times| :: times[i] != 0) && forall i, j | 0 <= i < j < |times| :: times[i] <= times[j]
  }

  lemma FullBurst(spec: Spec) returns (times: seq<int>)
    requires spec.Usable() && spec.window >= 2
    ensures InOrder(times) && Play(spec, times, spec.window).1 == 2 * spec.limit - 1
  {
    var full := FirstWindow(spec);
    FirstWindowPlays(spec);
    BothWindowsPlay(spec, full);
    times := full + [spec.window + 1] + Again(spec.window + 1, spec.limit - 1);
    BurstInOrder(spec, times);
  }

  lemma BurstInOrder(spec: Spec, times: seq<int>)
    requires spec.Usable() && spec.window >= 2
    requires times == FirstWindow(spec) + [spec.window + 1] + Again(spec.window + 1, spec.limit - 1)
    ensures InOrder(times)
  {
    forall i | 0 <= i < |times|
      ensures times[i] == if i == 0 then 1 else if i < spec.limit then spec.window else spec.window + 1
    {}
  }

  /** The bound without overflow is reached for every limit and every window of at least two ticks. */
  lemma RateBoundIsTight(spec: Spec) returns (burst: seq<Request>, from: int)
    requires spec.Usable() && spec.window >= 2
    ensures Chronological(burst) && Tally(spec, burst, from, Some("k"), None) == 2 * spec.limit - 1
  {
    var times := FullBurst(spec);
    burst, from := Asks(times), spec.window;
    PlayIsTally(spec, times, from);
  }

  // ---- the table stays bounded ----

  lemma InsertBound(keys: set<string>, key: string, n: nat)
    requires |keys - {OVERFLOW_KEY}| <= n
    requires key in keys || key == OVERFLOW_KEY || |keys| < n
    ensures |keys + {key} - {OVERFLOW_KEY}| <= n
  {
    if key in keys || key == OVERFLOW_KEY {
      assert keys + {key} - {OVERFLOW_KEY} == keys - {OVERFLOW_KEY};
    } else {
      SubsetSize(keys - {OVERFLOW_KEY}, keys);
      assert keys + {key} - {OVERFLOW_KEY} == keys - {OVERFLOW_KEY} + {key};
    }
  }

  lemma {:induction false} RegularBound(spec: Spec, reqs: seq<Request>)
    ensures |After(spec, reqs).buckets.Keys - {OVERFLOW_KEY}| <= MAX_BUCKETS - 1
    decreases |reqs|
  {
    if reqs != [] {
      RegularBound(spec, Init(reqs));
      var t, r := After(spec, Init(reqs)), Last(reqs);
      var p, key := Pruned(spec, t, r.now), Charge(spec, t, r);
      SubsetSize(p.buckets.Keys - {OVERFLOW_KEY}, t.buckets.Keys - {OVERFLOW_KEY});
      InsertBound(p.buckets.Keys, key, MAX_BUCKETS - 1);
      assert After(spec, reqs).buckets.Keys == p.buckets.Keys + {key};
    }
  }

  /** However many keys are used, the table never exceeds its cap, and at least one place of the cap is
      never taken by a bucket other than the overflow bucket. */
  lemma TableBound(spec: Spec, reqs: seq<Request>)
    ensures |After(spec, reqs).buckets.Keys - {OVERFLOW_KEY}| <= MAX_BUCKETS - 1
    ensures |After(spec, reqs).buckets| <= MAX_BUCKETS
  {
    RegularBound(spec, reqs);
    var keys := After(spec, reqs).buckets.Keys;
    SubsetSize(keys, (keys - {OVERFLOW_KEY}) + {OVERFLOW_KEY});
  }

  lemma SubsetSize<T>(a: set<T>, b: set<T>)
    requires a <= b
    ensures |a| <= |b|
  {
    assert b == a + (b - a);
  }

  // ---- pruning is invisible ----

  /** The limiter without pruning and without a cap. */
  function IdealAfter(spec: Spec, reqs: seq<Request>): Table {
    if reqs == [] then EMPTY
    else
      var (t, r) := (IdealAfter(spec, Init(reqs)), Last(reqs));
      t.(buckets := t.buckets[ClientKey(r.key) := Touched(spec, BucketOf(t, ClientKey(r.key)), r.now)])
  }

  predicate IdealGranted(spec: Spec, t: Table, r: Request) {
    Touched(spec, BucketOf(t, ClientKey(r.key)), r.now).count <= spec.limit
  }

  /** No request so far was charged to anything but its own key. */
  predicate NeverOverflowed(spec: Spec, reqs: seq<Request>) {
    forall i | 0 <= i < |reqs| :: OwnBucketAt(spec, reqs, i)
  }

  predicate OwnBucketAt(spec: Spec, reqs: seq<Request>, i: nat)
    requires i < |reqs|
  {
    Charge(spec, After(spec, reqs[..i]), reqs[i]) == ClientKey(reqs[i].key)
  }

  /** The real table agrees with the ideal one except for buckets idle for two windows. */
  ghost predicate Mirrors(spec: Spec, reqs: seq<Request>) {
    var actual, ideal := After(spec, reqs).buckets, IdealAfter(spec, reqs).buckets;
    && (forall k | k in actual :: k in ideal && actual[k] == ideal[k])
    && (forall k | k in ideal ::
          reqs != [] && ideal[k].windowStart != 0 && ideal[k].windowStart <= Last(reqs).now
          && (k in actual || ideal[k].windowStart + 2 * spec.window <= Last(reqs).now))
  }

  lemma {:induction false} TablesMirror(spec: Spec, reqs: seq<Request>)
    requires spec.Usable() && Chronological(reqs) && NeverOverflowed(spec, reqs)
    ensures Mirrors(spec, reqs)
    decreases |reqs|
  {
    if reqs != [] {
      ChronologicalInit(reqs);
      NeverOverflowedInit(spec, reqs);
      TablesMirror(spec, Init(reqs));
    }
  }

  lemma NeverOverflowedInit(spec: Spec, reqs: seq<Request>)
    requires reqs != [] && NeverOverflowed(spec, reqs)
    ensures NeverOverflowed(spec, Init(reqs))
    ensures Charge(spec, After(spec, Init(reqs)), Last(reqs)) == ClientKey(Last(reqs).key)
  {
    forall i | 0 <= i < |Init(reqs)| ensures OwnBucketAt(spec, Init(reqs), i) {
      assert OwnBucketAt(spec, reqs, i);
      assert Init(reqs)[..i] == reqs[..i];
    }
    assert OwnBucketAt(spec, reqs, |reqs| - 1);
  }

  /** One request finds the same count in both tables: a bucket that was or is now pruned would restart. */
  lemma SameAnswer(spec: Spec, actual: Table, ideal: Table, r: Request)
    requires spec.Usable() && r.now != 0 && Charge(spec, actual, r) == ClientKey(r.key)
    requires forall k | k in actual.buckets :: k in ideal.buckets && actual.buckets[k] == ideal.buckets[k]
    requires forall k | k in ideal.buckets ::
      ideal.buckets[k].windowStart <= r.now
      && (k in actual.buckets || ideal.buckets[k].windowStart + 2 * spec.window <= r.now)
    ensures Granted(spec, actual, r) == IdealGranted(spec, ideal, r)
  {
    var key := ClientKey(r.key);
    if key in ideal.buckets && key !in Pruned(spec, actual, r.now).buckets {
      assert r.now - ideal.buckets[key].windowStart >= 2 * spec.window;
    }
  }

  /** Below the overflow threshold pruning cannot be observed: every request gets the answer of a limiter
      with an unbounded table that never prunes. */
  lemma PruningIsInvisible(spec: Spec, reqs: seq<Request>, next: Request)
    requires spec.Usable() && Chronological(reqs + [next]) && NeverOverflowed(spec, reqs + [next])
    ensures Granted(spec, After(spec, reqs), next) == IdealGranted(spec, IdealAfter(spec, reqs), next)
  {
    assert Init(reqs + [next]) == reqs;
    ChronologicalInit(reqs + [next]);
    NeverOverflowedInit(spec, reqs + [next]);
    TablesMirror(spec, reqs);
    SameAnswer(spec, After(spec, reqs), IdealAfter(spec, reqs), next);
  }
}
