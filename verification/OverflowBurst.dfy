/** The worst case of the rate limiter of pkg/accesspolicy/access_policy.go: a client that finds the table full, is
    served from the overflow bucket, and gets a bucket of its own as soon as pruning makes room. */
module OverflowBurst {
  import opened Sequences
  import opened Text
  import opened RateLimiting

  /** A key that is charged to a bucket of its own while there is room. */
  predicate Proper(key: string) {
    ClientKey(key) == key && key != OVERFLOW_KEY
  }

  /** The client of the burst, and one member of the crowd that came before it. */
  datatype Cast = Cast(spec: Spec, client: string, member: string) {
    predicate Fine() {
      && spec.limit > 0 && spec.window >= PRUNE_INTERVAL
      && Proper(client) && Proper(member) && client != member
    }

    /** The interval the grants are counted in starts here. */
    function From(): int { spec.window + 2 }

    function Come(now: int): Request { Request(client, now) }

    function Return(now: int): Request { Request(member, now) }
  }

  /** The table after serving more requests, and the grants of the client in the interval meanwhile. */
  function Served(c: Cast, t: Table, reqs: seq<Request>): Table
    decreases |reqs|
  {
    if reqs == [] then t else Served(c, Step(c.spec, t, reqs[0]), reqs[1..])
  }

  function Gained(c: Cast, t: Table, reqs: seq<Request>): int
    decreases |reqs|
  {
    if reqs == [] then 0 else Counted(c, t, reqs[0]) + Gained(c, Step(c.spec, t, reqs[0]), reqs[1..])
  }

  function Counted(c: Cast, t: Table, r: Request): int {
    if Granted(c.spec, t, r) && c.From() <= r.now < c.From() + c.spec.window && ClientKey(r.key) == c.client
    then 1 else 0
  }

  function Grants(c: Cast, reqs: seq<Request>): int {
    Tally(c.spec, reqs, c.From(), Some(c.client), None)
  }

  lemma {:induction false} ServeIsTally(c: Cast, before: seq<Request>, reqs: seq<Request>)
    ensures After(c.spec, before + reqs) == Served(c, After(c.spec, before), reqs)
    ensures Grants(c, before + reqs) == Grants(c, before) + Gained(c, After(c.spec, before), reqs)
    decreases |reqs|
  {
    if reqs == [] {
      assert before + reqs == before;
    } else {
      assert before + reqs == (before + [reqs[0]]) + reqs[1..];
      assert Init(before + [reqs[0]]) == before;
      ServeIsTally(c, before + [reqs[0]], reqs[1..]);
    }
  }

  lemma {:induction false} ServeTogether(c: Cast, t: Table, a: seq<Request>, b: seq<Request>)
    ensures Served(c, t, a + b) == Served(c, Served(c, t, a), b)
    ensures Gained(c, t, a + b) == Gained(c, t, a) + Gained(c, Served(c, t, a), b)
    decreases |a|
  {
    if a == [] {
      assert a + b == b;
    } else {
      assert (a + b)[1..] == a[1..] + b;
      ServeTogether(c, Step(c.spec, t, a[0]), a[1..], b);
    }
  }

  /** In order, and all at times from `lo` to `hi`. */
  predicate Ordered(reqs: seq<Request>, lo: int, hi: int) {
    Chronological(reqs) && forall i | 0 <= i < |reqs| :: lo <= reqs[i].now <= hi
  }

  lemma OrderedTogether(a: seq<Request>, b: seq<Request>, lo: int, mid: int, hi: int)
    requires Ordered(a, lo, mid) && Ordered(b, mid, hi) && lo <= mid <= hi
    ensures Ordered(a + b, lo, hi)
  {}

  /** Requests from `lo` to `hi` that lead from one table to another and win the client so many grants. */
  ghost predicate Phase(c: Cast, t: Table, reqs: seq<Request>, last: Table, won: int, lo: int, hi: int) {
    Served(c, t, reqs) == last && Gained(c, t, reqs) == won && Ordered(reqs, lo, hi) && lo <= hi
  }

  lemma OneRequest(c: Cast, t: Table, r: Request)
    requires r.now != 0
    ensures Phase(c, t, [r], Step(c.spec, t, r), Counted(c, t, r), r.now, r.now)
  {}

  /** One phase after another. */
  lemma Then(c: Cast, t: Table, a: seq<Request>, mid: Table, x: int, lo: int, now: int,
             b: seq<Request>, last: Table, y: int, later: int, hi: int)
    requires Phase(c, t, a, mid, x, lo, now) && Phase(c, mid, b, last, y, later, hi) && now <= later
    ensures Phase(c, t, a + b, last, x + y, lo, hi)
  {
    ServeTogether(c, t, a, b);
    OrderedTogether(a, b, lo, now, hi);
  }

  // ---- the crowd ----

  const CROWD := MAX_BUCKETS - 1

  /** Pairwise different clients, none of them the given one. */
  predicate Crowd(names: seq<string>, client: string) {
    names == []
    || (Crowd(Init(names), client) && Last(names) !in Init(names) && Proper(Last(names)) && Last(names) != client)
  }

  /** Each of them sends one request at time 1. */
  function Visits(names: seq<string>): seq<Request> {
    if names == [] then [] else Visits(Init(names)) + [Request(Last(names), 1)]
  }

  function Gathered(names: seq<string>): map<string, Bucket> {
    if names == [] then map[] else Gathered(Init(names))[Last(names) := Bucket(1, 1)]
  }

  lemma {:induction false} GatheredKeys(names: seq<string>, client: string)
    requires Crowd(names, client)
    ensures |Gathered(names)| == |names| && client !in Gathered(names) && OVERFLOW_KEY !in Gathered(names)
    ensures forall key | key in Gathered(names) :: key in names && Gathered(names)[key].windowStart == 1
    ensures names != [] ==> names[0] in Gathered(names) && Proper(names[0]) && names[0] != client
  {
    if names != [] { GatheredKeys(Init(names), client); }
  }

  lemma NewClient(spec: Spec, t: Table, key: string)
    requires spec.Usable() && Proper(key) && key !in t.buckets && |t.buckets| < CROWD
    requires t.lastPrune == 0 || t.lastPrune == 1
    requires forall k | k in t.buckets :: t.buckets[k].windowStart == 1
    ensures var pruned := if |t.buckets| > PRUNE_THRESHOLD && t.lastPrune == 0 then 1 else t.lastPrune;
      Step(spec, t, Request(key, 1)) == Table(t.buckets[key := Bucket(1, 1)], pruned)
  {
    assert Pruned(spec, t, 1).buckets == t.buckets;
  }

  lemma {:induction false} CrowdComes(c: Cast, names: seq<string>)
    requires c.Fine() && Crowd(names, c.client) && |names| <= CROWD
    ensures After(c.spec, Visits(names)) == Table(Gathered(names), if |names| > PRUNE_THRESHOLD + 1 then 1 else 0)
    ensures Grants(c, Visits(names)) == 0
  {
    if names != [] {
      var before, r := Visits(Init(names)), Request(Last(names), 1);
      CrowdComes(c, Init(names));
      GatheredKeys(Init(names), c.client);
      NewClient(c.spec, After(c.spec, before), r.key);
      assert Init(before + [r]) == before && Last(before + [r]) == r;
    }
  }

  // ---- the client in front of a full table ----

  /** The table is full of clients that came at time 1, one of which may have come back at time `back`; the client
      is not in it, and this is the overflow bucket. */
  ghost predicate Packed(c: Cast, t: Table, overflow: Option<Bucket>, lastPrune: int, back: int) {
    && |t.buckets| >= CROWD && c.client !in t.buckets && t.lastPrune == lastPrune && c.member in t.buckets
    && t.buckets[c.member].windowStart == back
    && (forall key | key in t.buckets && key != OVERFLOW_KEY && key != c.member :: t.buckets[key].windowStart == 1)
    && (if overflow.Some? then OVERFLOW_KEY in t.buckets && t.buckets[OVERFLOW_KEY] == overflow.value
        else OVERFLOW_KEY !in t.buckets)
  }

  lemma CrowdIsPacked(c: Cast, names: seq<string>)
    requires c.Fine() && Crowd(names, c.client) && |names| == CROWD && names[0] == c.member
    ensures Packed(c, Table(Gathered(names), 1), None, 1, 1)
  {
    GatheredKeys(names, c.client);
  }

  function OrEmpty(b: Option<Bucket>): Bucket {
    if b.Some? then b.value else Bucket(0, 0)
  }

  /** While no pruning is due the client is charged to the overflow bucket. */
  lemma OverflowStep(c: Cast, t: Table, overflow: Option<Bucket>, lastPrune: int, back: int, now: int)
    requires c.Fine() && Packed(c, t, overflow, lastPrune, back) && lastPrune != 0 && now - lastPrune < PRUNE_INTERVAL
    ensures var next := Touched(c.spec, OrEmpty(overflow), now);
      && Packed(c, Step(c.spec, t, c.Come(now)), Some(next), lastPrune, back)
      && (Granted(c.spec, t, c.Come(now)) <==> next.count <= c.spec.limit)
  {
    assert Pruned(c.spec, t, now) == t && Charge(c.spec, t, c.Come(now)) == OVERFLOW_KEY;
    var next := Step(c.spec, t, c.Come(now));
    assert next.buckets == t.buckets[OVERFLOW_KEY := Touched(c.spec, OrEmpty(overflow), now)];
    SubsetSize(t.buckets.Keys, next.buckets.Keys);
  }

  /** As many requests as the overflow bucket still has room for. */
  lemma {:induction false} OverflowRepeat(c: Cast, t: Table, b: Bucket, lastPrune: int, back: int, now: int, n: nat)
    returns (reqs: seq<Request>, last: Table)
    requires c.Fine() && Packed(c, t, Some(b), lastPrune, back) && lastPrune != 0 && now - lastPrune < PRUNE_INTERVAL
    requires b.windowStart != 0 && 0 <= now - b.windowStart < c.spec.window && b.count + n <= c.spec.limit
    requires c.From() <= now < c.From() + c.spec.window
    ensures Phase(c, t, reqs, last, n, now, now)
    ensures Packed(c, last, Some(Bucket(b.windowStart, b.count + n)), lastPrune, back)
    decreases n
  {
    reqs, last := [], t;
    if n > 0 {
      OverflowStep(c, t, Some(b), lastPrune, back, now);
      var next := Step(c.spec, t, c.Come(now));
      reqs, last := OverflowRepeat(c, next, Bucket(b.windowStart, b.count + 1), lastPrune, back, now, n - 1);
      OneRequest(c, t, c.Come(now));
      Then(c, t, [c.Come(now)], next, 1, now, now, reqs, last, n - 1, now, now);
      reqs := [c.Come(now)] + reqs;
    }
  }

  /** A window that starts in the overflow bucket and uses it up. */
  lemma OverflowWindow(c: Cast, t: Table, b: Bucket, lastPrune: int, back: int, now: int)
    returns (reqs: seq<Request>, last: Table)
    requires c.Fine() && Packed(c, t, Some(b), lastPrune, back) && lastPrune != 0 && now - lastPrune < PRUNE_INTERVAL
    requires now != 0 && now - b.windowStart >= c.spec.window && c.From() <= now < c.From() + c.spec.window
    ensures Phase(c, t, reqs, last, c.spec.limit, now, now)
    ensures Packed(c, last, Some(Bucket(now, c.spec.limit)), lastPrune, back)
  {
    OverflowStep(c, t, Some(b), lastPrune, back, now);
    var next := Step(c.spec, t, c.Come(now));
    reqs, last := OverflowRepeat(c, next, Bucket(now, 1), lastPrune, back, now, c.spec.limit - 1);
    OneRequest(c, t, c.Come(now));
    Then(c, t, [c.Come(now)], next, 1, now, now, reqs, last, c.spec.limit - 1, now, now);
    reqs := [c.Come(now)] + reqs;
  }

  // ---- pruning makes room ----

  /** A member of the crowd comes back and triggers a pruning that removes nobody. */
  lemma MemberReturns(c: Cast, t: Table, b: Bucket, now: int)
    requires c.Fine() && Packed(c, t, Some(b), 1, 1) && now - 1 >= PRUNE_INTERVAL
    requires c.spec.window <= now - 1 < 2 * c.spec.window && now - b.windowStart < 2 * c.spec.window
    ensures Packed(c, Step(c.spec, t, c.Return(now)), Some(b), now, now)
  {
    assert Pruned(c.spec, t, now).buckets == t.buckets;
    var next := Step(c.spec, t, c.Return(now));
    assert next.buckets == t.buckets[c.member := Bucket(now, 1)];
    assert next.buckets.Keys == t.buckets.Keys;
  }

  /** The table holds next to nobody, and this is the client's own bucket. */
  ghost predicate Roomy(c: Cast, t: Table, b: Bucket) {
    |t.buckets| <= 3 && c.client in t.buckets && t.buckets[c.client] == b
  }

  lemma OwnBucketAtLast(c: Cast, t: Table, b: Bucket, back: int, now: int)
    requires c.Fine() && Packed(c, t, Some(b), back, back) && back != 0
    requires now - back >= PRUNE_INTERVAL && now - 1 >= 2 * c.spec.window
    ensures Roomy(c, Step(c.spec, t, c.Come(now)), Bucket(now, 1)) && Granted(c.spec, t, c.Come(now))
  {
    var p := Pruned(c.spec, t, now);
    assert p.buckets.Keys <= {c.member, OVERFLOW_KEY};
    SubsetSize(p.buckets.Keys, {c.member, OVERFLOW_KEY});
    assert c.client !in p.buckets;
    assert |p.buckets| == |p.buckets.Keys|;
    assert Charge(c.spec, t, c.Come(now)) == c.client;
  }

  lemma {:induction false} OwnRepeat(c: Cast, t: Table, b: Bucket, now: int, n: nat)
    returns (reqs: seq<Request>, last: Table)
    requires c.Fine() && Roomy(c, t, b) && b.windowStart == now != 0 && b.count + n <= c.spec.limit
    requires c.From() <= now < c.From() + c.spec.window
    ensures Phase(c, t, reqs, last, n, now, now)
    decreases n
  {
    reqs, last := [], t;
    if n > 0 {
      var next := Step(c.spec, t, c.Come(now));
      assert Pruned(c.spec, t, now) == t;
      assert next.buckets.Keys == t.buckets.Keys;
      reqs, last := OwnRepeat(c, next, Bucket(now, b.count + 1), now, n - 1);
      OneRequest(c, t, c.Come(now));
      Then(c, t, [c.Come(now)], next, 1, now, now, reqs, last, n - 1, now, now);
      reqs := [c.Come(now)] + reqs;
    }
  }

  lemma OwnWindow(c: Cast, t: Table, b: Bucket, back: int, now: int) returns (reqs: seq<Request>, last: Table)
    requires c.Fine() && Packed(c, t, Some(b), back, back) && back != 0
    requires now - back >= PRUNE_INTERVAL && now - 1 >= 2 * c.spec.window
    requires c.From() <= now < c.From() + c.spec.window
    ensures Phase(c, t, reqs, last, c.spec.limit, now, now)
  {
    OwnBucketAtLast(c, t, b, back, now);
    var next := Step(c.spec, t, c.Come(now));
    reqs, last := OwnRepeat(c, next, Bucket(now, 1), now, c.spec.limit - 1);
    OneRequest(c, t, c.Come(now));
    Then(c, t, [c.Come(now)], next, 1, now, now, reqs, last, c.spec.limit - 1, now, now);
    reqs := [c.Come(now)] + reqs;
  }

  // ---- the whole burst ----

  /** The client meets the full table; later a member of the crowd triggers a pruning. */
  lemma Arrival(c: Cast, t: Table) returns (reqs: seq<Request>, last: Table)
    requires c.Fine() && Packed(c, t, None, 1, 1)
    ensures Phase(c, t, reqs, last, 0, 3, c.spec.window + 1)
    ensures Packed(c, last, Some(Bucket(3, 1)), c.spec.window + 1, c.spec.window + 1)
  {
    var first, back := c.Come(3), c.Return(c.spec.window + 1);
    OverflowStep(c, t, None, 1, 1, 3);
    var next := Step(c.spec, t, first);
    MemberReturns(c, next, Bucket(3, 1), back.now);
    last := Step(c.spec, next, back);
    OneRequest(c, t, first);
    OneRequest(c, next, back);
    Then(c, t, [first], next, 0, 3, 3, [back], last, 0, back.now, back.now);
    reqs := [first] + [back];
  }

  /** The whole next overflow window, and after the next pruning a window in a bucket of its own. */
  lemma TwoWindows(c: Cast, t: Table) returns (reqs: seq<Request>, last: Table)
    requires c.Fine() && Packed(c, t, Some(Bucket(3, c.spec.limit)), c.spec.window + 1, c.spec.window + 1)
    ensures Phase(c, t, reqs, last, 2 * c.spec.limit, c.spec.window + 3, 2 * c.spec.window + 1)
  {
    var back, second, own := c.spec.window + 1, c.spec.window + 3, 2 * c.spec.window + 1;
    var a, mid := OverflowWindow(c, t, Bucket(3, c.spec.limit), back, back, second);
    var b;
    b, last := OwnWindow(c, mid, Bucket(second, c.spec.limit), back, own);
    Then(c, t, a, mid, c.spec.limit, second, second, b, last, c.spec.limit, own, own);
    reqs := a + b;
  }

  /** The rest of the first overflow window, and the other two. */
  lemma ThreeWindows(c: Cast, t: Table) returns (reqs: seq<Request>, last: Table)
    requires c.Fine() && Packed(c, t, Some(Bucket(3, 1)), c.spec.window + 1, c.spec.window + 1)
    ensures Phase(c, t, reqs, last, 3 * c.spec.limit - 1, c.spec.window + 2, 2 * c.spec.window + 1)
  {
    var w, l := c.spec.window, c.spec.limit;
    var a, mid := OverflowRepeat(c, t, Bucket(3, 1), w + 1, w + 1, w + 2, l - 1);
    var b;
    b, last := TwoWindows(c, mid);
    Then(c, t, a, mid, l - 1, w + 2, w + 2, b, last, 2 * l, w + 3, 2 * w + 1);
    reqs := a + b;
  }

  lemma Burst(c: Cast, t: Table) returns (reqs: seq<Request>, last: Table)
    requires c.Fine() && Packed(c, t, None, 1, 1)
    ensures Phase(c, t, reqs, last, 3 * c.spec.limit - 1, 3, 2 * c.spec.window + 1)
  {
    var w, l := c.spec.window, c.spec.limit;
    var a, mid := Arrival(c, t);
    var b;
    b, last := ThreeWindows(c, mid);
    Then(c, t, a, mid, 0, 3, w + 1, b, last, 3 * l - 1, w + 2, 2 * w + 1);
    reqs := a + b;
  }

  // ---- the bound is reached ----

  /** Any client that meets any crowd filling the table is granted 3 * limit - 1 requests within one window: the
      rest of one overflow window, all of the next, and a whole window of its own. */
  lemma BurstBehindCrowd(c: Cast, names: seq<string>) returns (burst: seq<Request>)
    requires c.Fine() && Crowd(names, c.client) && |names| == CROWD && names[0] == c.member
    ensures Chronological(Visits(names) + burst) && Grants(c, Visits(names) + burst) == 3 * c.spec.limit - 1
  {
    CrowdComes(c, names);
    CrowdIsPacked(c, names);
    var last;
    burst, last := Burst(c, After(c.spec, Visits(names)));
    ServeIsTally(c, Visits(names), burst);
    VisitsOrdered(names);
    OrderedTogether(Visits(names), burst, 1, 1, 2 * c.spec.window + 1);
  }

  lemma {:induction false} VisitsOrdered(names: seq<string>)
    ensures Ordered(Visits(names), 1, 1)
  {
    if names != [] {
      VisitsOrdered(Init(names));
      OrderedTogether(Visits(Init(names)), [Request(Last(names), 1)], 1, 1, 1);
    }
  }

  function Numbered(n: nat): seq<string> {
    if n == 0 then [] else Numbered(n - 1) + [Decimal(n - 1)]
  }

  lemma DigitsStay(n: nat)
    ensures Proper(Decimal(n)) && Decimal(n) != "k"
  {
    var s := Decimal(n);
    assert TrimLeft(s) == s && TrimRight(s) == s;
    assert '0' <= s[0] <= '9';
  }

  lemma {:induction false} NotNumbered(n: nat, m: nat)
    requires n <= m
    ensures Decimal(m) !in Numbered(n)
    decreases n
  {
    if n > 0 {
      NotNumbered(n - 1, m);
      if Decimal(m) == Decimal(n - 1) { DecimalInjective(m, n - 1); }
    }
  }

  lemma {:induction false} NumberedIsCrowd(n: nat)
    ensures Crowd(Numbered(n), "k") && |Numbered(n)| == n
    ensures n > 0 ==> Numbered(n)[0] == Decimal(0)
  {
    if n > 0 {
      NumberedIsCrowd(n - 1);
      NotNumbered(n - 1, n - 1);
      DigitsStay(n - 1);
      CrowdGrows(Numbered(n - 1), Decimal(n - 1), "k");
    }
  }

  lemma CrowdGrows(names: seq<string>, name: string, client: string)
    requires Crowd(names, client) && name !in names && Proper(name) && name != client
    ensures Crowd(names + [name], client)
  {
    assert Init(names + [name]) == names && Last(names + [name]) == name;
  }

  /** The bound with the overflow bucket is reached for every limit and every window of at least a second. */
  lemma OverflowBoundIsTight(spec: Spec) returns (burst: seq<Request>, from: int)
    requires spec.Usable() && spec.window >= PRUNE_INTERVAL
    ensures Chronological(burst) && Tally(spec, burst, from, Some("k"), None) == 3 * spec.limit - 1
  {
    var c := Cast(spec, "k", Decimal(0));
    DigitsStay(0);
    assert Proper("k");
    NumberedIsCrowd(CROWD);
    var requests := BurstBehindCrowd(c, Numbered(CROWD));
    burst, from := Visits(Numbered(CROWD)) + requests, c.From();
  }
}
