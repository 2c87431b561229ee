/** Lock ordering of cmd/tunnel_lock.go: tunnel locks are taken in sorted order without duplicates, and the
    session-store lock of pkg/session/session.go is only ever taken last. */
module Locks {

  // ---- the order of lock names ----

  /** Go's string order. */
  predicate Less(a: string, b: string) {
    b != "" && (a == "" || a[0] < b[0] || (a[0] == b[0] && Less(a[1..], b[1..])))
  }

  lemma {:induction false} LessIrreflexive(a: string)
    ensures !Less(a, a)
  {
    if a != "" { LessIrreflexive(a[1..]); }
  }

  lemma {:induction false} LessTransitive(a: string, b: string, c: string)
    requires Less(a, b) && Less(b, c)
    ensures Less(a, c)
    decreases |a|
  {
    if a != "" && a[0] == b[0] && b[0] == c[0] { LessTransitive(a[1..], b[1..], c[1..]); }
  }

  lemma {:induction false} LessTotal(a: string, b: string)
    ensures a == b || Less(a, b) || Less(b, a)
    decreases |a|
  {
    if a != "" && b != "" && a[0] == b[0] {
      LessTotal(a[1..], b[1..]);
      assert a == [a[0]] + a[1..] && b == [b[0]] + b[1..];
    }
  }

  predicate Sorted(s: seq<string>) {
    forall i, j | 0 <= i < j < |s| :: s[i] == s[j] || Less(s[i], s[j])
  }

  predicate StrictlyIncreasing(s: seq<string>) {
    forall i, j | 0 <= i < j < |s| :: Less(s[i], s[j])
  }

  // ---- compactSortedStrings ----

  function Compacted(s: seq<string>): (c: seq<string>)
    ensures |c| <= |s| && (s != [] ==> c != [] && c[|c| - 1] == s[|s| - 1])
  {
    if |s| < 2 then s
    else
      var c := Compacted(s[..|s| - 1]);
      if s[|s| - 1] == c[|c| - 1] then c else c + [s[|s| - 1]]
  }

  /** Overwrites the slice in place and returns how much of its front is the result. */
  method CompactSortedStrings(values: array<string>) returns (n: nat)
    modifies values
    ensures n <= values.Length && values[..n] == Compacted(old(values[..]))
  {
    ghost var was := values[..];
    if values.Length < 2 {
      n := values.Length;
      assert values[..n] == was;
      return;
    }
    var write := 1;
    assert values[..1] == was[..1];
    for read := 1 to values.Length
      invariant 1 <= write <= read
      invariant values[..write] == Compacted(was[..read])
      invariant forall k | read <= k < values.Length :: values[k] == was[k]
    {
      assert was[..read + 1][..read] == was[..read];
      assert values[..write][write - 1] == values[write - 1];
      if values[read] == values[write - 1] {
        continue;
      }
      ghost var kept := values[..write];
      values[write] := values[read];
      write := write + 1;
      assert values[..write] == kept + [was[read]];
    }
    assert was[..values.Length] == was;
    n := write;
  }

  lemma SortedInit(s: seq<string>)
    requires |s| >= 2 && Sorted(s)
    ensures Sorted(s[..|s| - 1])
    ensures s[|s| - 2] == s[|s| - 1] || Less(s[|s| - 2], s[|s| - 1])
  {}

  lemma AppendGreater(c: seq<string>, x: string)
    requires c != [] && StrictlyIncreasing(c) && Less(c[|c| - 1], x)
    ensures StrictlyIncreasing(c + [x])
  {
    forall i | 0 <= i < |c| ensures Less(c[i], x) {
      if i < |c| - 1 { LessTransitive(c[i], c[|c| - 1], x); }
    }
  }

  /** On sorted input compaction keeps every element once, in strictly increasing order. */
  lemma {:induction false} CompactedIsStrict(s: seq<string>)
    requires Sorted(s)
    ensures StrictlyIncreasing(Compacted(s))
    ensures forall x :: x in Compacted(s) <==> x in s
    decreases |s|
  {
    if |s| >= 2 {
      var init, last := s[..|s| - 1], s[|s| - 1];
      SortedInit(s);
      CompactedIsStrict(init);
      var c := Compacted(init);
      assert forall x :: x in s <==> x in init || x == last;
      if last != c[|c| - 1] { AppendGreater(c, last); }
    }
  }

  // ---- processes and locks ----

  /** A process that wants its tunnel locks, runs, may use the store any number of times, and lets go of
      its locks in reverse order. Waiting for a tunnel lock may time out. */
  datatype Phase = Acquiring | Body | WaitingStore | InStore | Releasing | Finished
  datatype Process = Process(plan: seq<string>, held: nat, phase: Phase)

  datatype Resource = Tunnel(id: string) | Store

  predicate Below(a: Resource, b: Resource) {
    match (a, b)
    case (Tunnel(x), Tunnel(y)) => Less(x, y)
    case (Tunnel(_), Store) => true
    case _ => false
  }

  predicate Holds(p: Process, r: Resource) {
    match r
    case Tunnel(id) => exists k | 0 <= k < p.held && k < |p.plan| :: p.plan[k] == id
    case Store => p.phase == InStore
  }

  /** The lock a process is asking for. */
  predicate Wants(p: Process, r: Resource) {
    (p.phase == Acquiring && p.held < |p.plan| && r == Tunnel(p.plan[p.held]))
    || (p.phase == WaitingStore && r == Store)
  }

  predicate Free(ps: seq<Process>, r: Resource) {
    forall i | 0 <= i < |ps| :: !Holds(ps[i], r)
  }

  datatype Action = Acquire | Enter | AskStore | TakeStore | DropStore | Leave | Release | End | TimeOut

  predicate Enabled(ps: seq<Process>, i: nat, a: Action)
    requires i < |ps|
  {
    var p := ps[i];
    match a
    case Acquire => p.phase == Acquiring && p.held < |p.plan| && Free(ps, Tunnel(p.plan[p.held]))
    case Enter => p.phase == Acquiring && p.held == |p.plan|
    case AskStore => p.phase == Body
    case TakeStore => p.phase == WaitingStore && Free(ps, Store)
    case DropStore => p.phase == InStore
    case Leave => p.phase == Body
    case Release => p.phase == Releasing && p.held > 0
    case End => p.phase == Releasing && p.held == 0
    case TimeOut => p.phase == Acquiring && p.held < |p.plan|
  }

  function After(p: Process, a: Action): Process {
    match a
    case Acquire => p.(held := p.held + 1)
    case Enter => p.(phase := Body)
    case AskStore => p.(phase := WaitingStore)
    case TakeStore => p.(phase := InStore)
    case DropStore => p.(phase := Body)
    case Leave => p.(phase := Releasing)
    case Release => if p.held > 0 then p.(held := p.held - 1) else p
    case End => p.(phase := Finished)
    case TimeOut => p.(phase := Releasing)
  }

  /** Plans come from `withTunnelOperationLocks`; every lock has at most one holder. */
  ghost predicate Inv(ps: seq<Process>) {
    && (forall i | 0 <= i < |ps| ::
          StrictlyIncreasing(ps[i].plan) && ps[i].held <= |ps[i].plan|
          && (ps[i].phase in {Body, WaitingStore, InStore} ==> ps[i].held == |ps[i].plan|)
          && (ps[i].phase == Finished ==> ps[i].held == 0))
    && forall i, j, r | 0 <= i < |ps| && 0 <= j < |ps| && i != j && Holds(ps[i], r) :: !Holds(ps[j], r)
  }

  /** Processes at the start: any lists of ids, sorted and compacted. */
  predicate Initial(ps: seq<Process>, sorted: seq<seq<string>>) {
    |ps| == |sorted|
    && forall i | 0 <= i < |ps| :: Sorted(sorted[i]) && ps[i] == Process(Compacted(sorted[i]), 0, Acquiring)
  }

  ghost predicate Run(states: seq<seq<Process>>, who: seq<nat>, actions: seq<Action>, sorted: seq<seq<string>>) {
    && |states| == |actions| + 1 && |who| == |actions| && Initial(states[0], sorted)
    && forall k | 0 <= k < |actions| ::
         && who[k] < |states[k]| && Enabled(states[k], who[k], actions[k])
         && states[k + 1] == states[k][who[k] := After(states[k][who[k]], actions[k])]
  }

  lemma HoldsAfter(p: Process, a: Action, r: Resource)
    requires p.held <= |p.plan| && Holds(After(p, a), r)
    ensures Holds(p, r) || (a == Acquire && p.held < |p.plan| && r == Tunnel(p.plan[p.held]))
      || (a == TakeStore && r == Store)
  {}

  lemma InvStep(ps: seq<Process>, i: nat, a: Action)
    requires Inv(ps) && i < |ps| && Enabled(ps, i, a)
    ensures Inv(ps[i := After(ps[i], a)])
  {
    var q := ps[i := After(ps[i], a)];
    forall j, k, r | 0 <= j < |q| && 0 <= k < |q| && j != k && Holds(q[j], r) ensures !Holds(q[k], r) {
      if j == i { HoldsAfter(ps[i], a, r); }
      if k == i && Holds(q[k], r) { HoldsAfter(ps[i], a, r); }
    }
  }

  lemma {:induction false} RunInv(states: seq<seq<Process>>, who: seq<nat>, actions: seq<Action>,
                                  sorted: seq<seq<string>>)
    requires Run(states, who, actions, sorted)
    ensures Inv(states[|actions|])
    decreases |actions|
  {
    if actions == [] {
      forall i | 0 <= i < |states[0]| ensures StrictlyIncreasing(states[0][i].plan) {
        CompactedIsStrict(sorted[i]);
      }
    } else {
      var n := |actions| - 1;
      RunInv(states[..n + 1], who[..n], actions[..n], sorted);
      InvStep(states[n], who[n], actions[n]);
    }
  }

  lemma {:induction false} PlanKept(states: seq<seq<Process>>, who: seq<nat>, actions: seq<Action>,
                                    sorted: seq<seq<string>>, i: nat)
    requires Run(states, who, actions, sorted) && i < |sorted|
    ensures |states[|actions|]| == |sorted| && states[|actions|][i].plan == Compacted(sorted[i])
    decreases |actions|
  {
    if actions != [] {
      var n := |actions| - 1;
      PlanKept(states[..n + 1], who[..n], actions[..n], sorted, i);
    }
  }

  /** Whatever runs inside the body holds the lock of every tunnel it asked for, and nobody else does; so two
      operations on the same tunnel never run at once. */
  lemma BodyIsGuarded(states: seq<seq<Process>>, who: seq<nat>, actions: seq<Action>, sorted: seq<seq<string>>,
                      i: nat, id: string)
    requires Run(states, who, actions, sorted) && i < |sorted| && id in sorted[i]
    requires i < |states[|actions|]| && states[|actions|][i].phase in {Body, WaitingStore, InStore}
    ensures Holds(states[|actions|][i], Tunnel(id))
    ensures forall j | 0 <= j < |states[|actions|]| && j != i :: !Holds(states[|actions|][j], Tunnel(id))
  {
    RunInv(states, who, actions, sorted);
    PlanKept(states, who, actions, sorted, i);
    CompactedIsStrict(sorted[i]);
    var k :| 0 <= k < |Compacted(sorted[i])| && Compacted(sorted[i])[k] == id;
    assert states[|actions|][i].plan[k] == id;
  }

  /** Releasing gives back exactly the last lock taken, and whoever is finished holds nothing. */
  lemma ReleasedInReverse(ps: seq<Process>, i: nat, r: Resource)
    requires Inv(ps) && i < |ps| && Enabled(ps, i, Release)
    ensures var p, q := ps[i], After(ps[i], Release);
      && q.held < p.held <= |p.plan|
      && (Holds(q, r) <==> Holds(p, r) && r != Tunnel(p.plan[p.held - 1]))
  {
    LessIrreflexive(ps[i].plan[ps[i].held - 1]);
  }

  lemma FinishedHoldsNothing(ps: seq<Process>, i: nat, r: Resource)
    requires Inv(ps) && i < |ps| && ps[i].phase == Finished
    ensures !Holds(ps[i], r)
  {}

  // ---- no deadlock ----

  /** Process i waits for process j. */
  ghost predicate WaitsFor(ps: seq<Process>, i: nat, j: nat) {
    i < |ps| && j < |ps| && exists r :: Wants(ps[i], r) && Holds(ps[j], r)
  }

  lemma WaitsUpwards(ps: seq<Process>, i: nat, j: nat, want: Resource, next: Resource)
    requires Inv(ps) && i < |ps| && j < |ps|
    requires Wants(ps[i], want) && Holds(ps[j], want) && Wants(ps[j], next)
    ensures Below(want, next)
  {}

  lemma BelowTransitive(a: Resource, b: Resource, c: Resource)
    requires Below(a, b) && Below(b, c)
    ensures Below(a, c)
  {
    if a.Tunnel? && b.Tunnel? && c.Tunnel? { LessTransitive(a.id, b.id, c.id); }
  }

  lemma BelowIrreflexive(a: Resource)
    ensures !Below(a, a)
  {
    if a.Tunnel? { LessIrreflexive(a.id); }
  }

  /** Along a chain of waiting processes the wanted locks climb. */
  lemma {:induction false} ChainClimbs(ps: seq<Process>, chain: seq<nat>, first: Resource, last: Resource)
    requires Inv(ps) && |chain| >= 2
    requires forall k | 0 <= k < |chain| - 1 :: WaitsFor(ps, chain[k], chain[k + 1])
    requires chain[0] < |ps| && Wants(ps[chain[0]], first)
    requires chain[|chain| - 1] < |ps| && Wants(ps[chain[|chain| - 1]], last)
    ensures Below(first, last)
    decreases |chain|
  {
    assert WaitsFor(ps, chain[0], chain[1]);
    var r :| Wants(ps[chain[0]], r) && Holds(ps[chain[1]], r);
    assert r == first;
    if |chain| == 2 {
      WaitsUpwards(ps, chain[0], chain[1], first, last);
    } else {
      assert WaitsFor(ps, chain[1], chain[2]);
      var next :| Wants(ps[chain[1]], next) && Holds(ps[chain[2]], next);
      WaitsUpwards(ps, chain[0], chain[1], first, next);
      ChainClimbs(ps, chain[1..], next, last);
      BelowTransitive(first, next, last);
    }
  }

  /** No reachable state has a cycle of processes each waiting for the next. */
  lemma NoWaitCycle(states: seq<seq<Process>>, who: seq<nat>, actions: seq<Action>, sorted: seq<seq<string>>,
                    cycle: seq<nat>)
    requires Run(states, who, actions, sorted) && |cycle| >= 2 && cycle[0] == cycle[|cycle| - 1]
    ensures exists k | 0 <= k < |cycle| - 1 :: !WaitsFor(states[|actions|], cycle[k], cycle[k + 1])
  {
    var ps := states[|actions|];
    RunInv(states, who, actions, sorted);
    if forall k | 0 <= k < |cycle| - 1 :: WaitsFor(ps, cycle[k], cycle[k + 1]) {
      assert WaitsFor(ps, cycle[0], cycle[1]);
      var r :| Wants(ps[cycle[0]], r) && Holds(ps[cycle[1]], r);
      ChainClimbs(ps, cycle, r, r);
      BelowIrreflexive(r);
      assert false;
    }
  }

  ghost predicate CanStep(ps: seq<Process>, i: nat) {
    i < |ps| && exists a :: a != TimeOut && Enabled(ps, i, a)
  }

  /** The processes that want something above the given lock. */
  ghost function Above(ps: seq<Process>, r: Resource): set<nat> {
    set i: nat | i < |ps| && exists q :: Wants(ps[i], q) && Below(r, q)
  }

  /** From any unfinished process, following whoever blocks whom leads to one that can move. */
  lemma SomeoneMoves(ps: seq<Process>, i: nat) returns (k: nat)
    requires Inv(ps) && i < |ps| && ps[i].phase != Finished
    ensures CanStep(ps, k)
  {
    k := i;
    if r :| Wants(ps[i], r) && !Free(ps, r) {
      k := Unblock(ps, i, r);
    } else {
      MovesUnlessBlocked(ps, i);
    }
  }

  lemma MovesUnlessBlocked(ps: seq<Process>, i: nat)
    requires Inv(ps) && i < |ps| && ps[i].phase != Finished
    requires forall r | Wants(ps[i], r) :: Free(ps, r)
    ensures CanStep(ps, i)
  {
    var p := ps[i];
    if p.phase == Acquiring && p.held < |p.plan| {
      assert Wants(p, Tunnel(p.plan[p.held]));
      assert Enabled(ps, i, Acquire);
    } else if p.phase == Acquiring {
      assert Enabled(ps, i, Enter);
    } else if p.phase == WaitingStore {
      assert Wants(p, Store);
      assert Enabled(ps, i, TakeStore);
    } else if p.phase == Body {
      assert Enabled(ps, i, Leave);
    } else if p.phase == InStore {
      assert Enabled(ps, i, DropStore);
    } else if p.held > 0 {
      assert Enabled(ps, i, Release);
    } else {
      assert Enabled(ps, i, End);
    }
  }

  lemma {:induction false} Unblock(ps: seq<Process>, i: nat, r: Resource) returns (k: nat)
    requires Inv(ps) && i < |ps| && Wants(ps[i], r) && !Free(ps, r)
    ensures CanStep(ps, k)
    decreases Above(ps, r)
  {
    var j: nat :| j < |ps| && Holds(ps[j], r);
    k := j;
    if next :| Wants(ps[j], next) && !Free(ps, next) {
      WaitsUpwards(ps, i, j, r, next);
      forall q | Below(next, q) ensures Below(r, q) { BelowTransitive(r, next, q); }
      BelowIrreflexive(next);
      assert Above(ps, next) <= Above(ps, r) && j in Above(ps, r) && j !in Above(ps, next);
      k := Unblock(ps, j, next);
    } else {
      MovesUnlessBlocked(ps, j);
    }
  }

  /** In every reachable state with an unfinished process, some process can take a step that is not a
      time-out. */
  lemma NoDeadlock(states: seq<seq<Process>>, who: seq<nat>, actions: seq<Action>, sorted: seq<seq<string>>, i: nat)
    requires Run(states, who, actions, sorted) && i < |states[|actions|]| && states[|actions|][i].phase != Finished
    ensures exists k :: CanStep(states[|actions|], k)
  {
    RunInv(states, who, actions, sorted);
    var k := SomeoneMoves(states[|actions|], i);
  }
}
