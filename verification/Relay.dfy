/** Two-way byte relay of pkg/tunnel/relay.go: two copying goroutines report over a channel of capacity two,
    and the main loop gives the surviving direction a short grace after the first unexpected error. */
module Relay {
  import opened Text

  /** How a direction ended: nil or an expected close, or an unexpected error. */
  datatype Result = Clean | Fails(error: int)

  const CHANNEL_CAPACITY := 2

  /** The main loop: about to receive for the i-th time, in the grace period after the first result was an
      unexpected error, or returned. */
  datatype Main = Receiving(i: nat, firstErr: Option<int>) | Draining(error: int) | Returned(result: Option<int>)

  /** sent says which goroutine has reported, arrivals lists the results in the order they were sent, and
      received counts those the main loop took. */
  datatype State = State(sent: seq<bool>, arrivals: seq<Result>, received: nat, main: Main, bothClosed: bool)

  const START := State([false, false], [], 0, Receiving(0, None), false)

  datatype Action = Send(direction: nat, result: Result) | Receive | DrainReceive | DrainTimeOut | Return

  predicate Enabled(s: State, a: Action) {
    match a
    case Send(d, _) => d < |s.sent| && !s.sent[d] && |s.arrivals| - s.received < CHANNEL_CAPACITY
    case Receive => s.main.Receiving? && s.main.i < 2 && s.received < |s.arrivals|
    case DrainReceive => s.main.Draining? && s.received < |s.arrivals|
    case DrainTimeOut => s.main.Draining?
    case Return => s.main.Receiving? && s.main.i >= 2
  }

  function Received(s: State): State
    requires Enabled(s, Receive)
  {
    var i, firstErr := s.main.i, s.main.firstErr;
    var t := s.(received := s.received + 1);
    match s.arrivals[s.received]
    case Clean => t.(main := Receiving(i + 1, firstErr))
    case Fails(e) =>
      if firstErr.Some? then t.(main := Receiving(i + 1, firstErr))
      else if i == 0 then t.(main := Draining(e))
      else t.(main := Receiving(i + 1, Some(e)), bothClosed := true)
  }

  function Next(s: State, a: Action): State
    requires Enabled(s, a)
  {
    match a
    case Send(d, r) => s.(sent := s.sent[d := true], arrivals := s.arrivals + [r])
    case Receive => Received(s)
    case DrainReceive => s.(received := s.received + 1, main := Receiving(2, Some(s.main.error)), bothClosed := true)
    case DrainTimeOut => s.(main := Receiving(2, Some(s.main.error)), bothClosed := true)
    case Return => s.(main := Returned(s.main.firstErr))
  }

  /** The first unexpected error in arrival order. */
  function FirstFailure(arrivals: seq<Result>): Option<int> {
    if arrivals == [] then None
    else match arrivals[0]
      case Fails(e) => Some(e)
      case Clean => FirstFailure(arrivals[1..])
  }

  lemma {:induction false} FirstFailureAppend(a: seq<Result>, r: Result)
    ensures FirstFailure(a + [r]) ==
      if FirstFailure(a).Some? then FirstFailure(a) else if r.Fails? then Some(r.error) else None
  {
    if a != [] {
      assert (a + [r])[1..] == a[1..] + [r];
      FirstFailureAppend(a[1..], r);
    } else {
      assert a + [r] == [r] && [r][1..] == [];
    }
  }

  function Reported(sent: seq<bool>): nat
    requires |sent| == 2
  {
    (if sent[0] then 1 else 0) + (if sent[1] then 1 else 0)
  }

  ghost predicate Inv(s: State) {
    && |s.sent| == 2 && |s.arrivals| == Reported(s.sent) && s.received <= |s.arrivals|
    && match s.main
       case Receiving(i, firstErr) =>
         && i <= 2
         && (firstErr.None? ==> s.received == i && FirstFailure(s.arrivals[..i]) == None && !s.bothClosed)
         && (firstErr.Some? ==> i == 2 && s.bothClosed && FirstFailure(s.arrivals) == firstErr)
       case Draining(e) => s.received == 1 && FirstFailure(s.arrivals) == Some(e)
       case Returned(r) =>
         && r == FirstFailure(s.arrivals)
         && (r.Some? ==> s.bothClosed)
         && (r.None? ==> |s.arrivals| == 2 && s.received == 2)
  }

  lemma SendInv(s: State, d: nat, r: Result)
    requires Inv(s) && Enabled(s, Send(d, r))
    ensures Inv(Next(s, Send(d, r)))
  {
    FirstFailureAppend(s.arrivals, r);
    if s.main.Receiving? && s.main.firstErr.None? {
      assert (s.arrivals + [r])[..s.main.i] == s.arrivals[..s.main.i];
    }
    if s.main.Returned? { assert s.main.result.Some?; }
  }

  lemma ReceiveInv(s: State)
    requires Inv(s) && Enabled(s, Receive)
    ensures Inv(Next(s, Receive))
  {
    var i := s.received;
    FirstFailureAppend(s.arrivals[..i], s.arrivals[i]);
    assert s.arrivals[..i] + [s.arrivals[i]] == s.arrivals[..i + 1];
    if s.arrivals[i].Fails? { FailureInPrefix(s.arrivals, i + 1); }
  }

  lemma {:induction false} FailureInPrefix(a: seq<Result>, n: nat)
    requires n <= |a| && FirstFailure(a[..n]).Some?
    ensures FirstFailure(a) == FirstFailure(a[..n])
    decreases |a|
  {
    if a[0].Clean? {
      assert a[..n][1..] == a[1..][..n - 1];
      FailureInPrefix(a[1..], n - 1);
    }
  }

  lemma InvStep(s: State, a: Action)
    requires Inv(s) && Enabled(s, a)
    ensures Inv(Next(s, a))
  {
    match a
    case Send(d, r) => SendInv(s, d, r);
    case Receive => ReceiveInv(s);
    case DrainReceive =>
    case DrainTimeOut =>
    case Return =>
      if s.main.firstErr.None? { assert s.arrivals[..2] == s.arrivals; }
  }

  ghost predicate Run(states: seq<State>, actions: seq<Action>) {
    && |states| == |actions| + 1 && states[0] == START
    && forall k | 0 <= k < |actions| :: Enabled(states[k], actions[k]) && states[k + 1] == Next(states[k], actions[k])
  }

  lemma {:induction false} RunInv(states: seq<State>, actions: seq<Action>)
    requires Run(states, actions)
    ensures Inv(states[|actions|])
    decreases |actions|
  {
    if actions != [] {
      var n := |actions| - 1;
      RunInv(states[..n + 1], actions[..n]);
      InvStep(states[n], actions[n]);
    }
  }

  /** In every schedule: at most two results are taken; a goroutine that has not reported can always send;
      and the value returned is the first unexpected error in arrival order, with both connections closed,
      or nil after both directions ended cleanly. */
  lemma RelayOutcome(states: seq<State>, actions: seq<Action>, direction: nat, result: Result)
    requires Run(states, actions) && direction < 2
    ensures var s := states[|actions|];
      && s.received <= 2 && |s.sent| == 2
      && (!s.sent[direction] ==> Enabled(s, Send(direction, result)))
      && (s.main.Returned? ==>
            && s.main.result == FirstFailure(s.arrivals)
            && (s.main.result.Some? ==> s.bothClosed)
            && (s.main.result.None? ==> s.sent == [true, true] && s.arrivals == [Clean, Clean]))
  {
    RunInv(states, actions);
    var s := states[|actions|];
    if s.main.Returned? && s.main.result.None? {
      assert s.arrivals[0].Clean? && s.arrivals[1..] == [s.arrivals[1]];
    }
  }

  /** The last state of some run. */
  ghost predicate Reachable(s: State) {
    exists states, actions :: Run(states, actions) && states[|actions|] == s
  }

  lemma StartReachable()
    ensures Reachable(START)
  {
    var none: seq<Action> := [];
    assert Run([START], none) && [START][|none|] == START;
  }

  lemma NextReachable(s: State, a: Action)
    requires Reachable(s) && Enabled(s, a)
    ensures Reachable(Next(s, a))
  {
    var states, actions :| Run(states, actions) && states[|actions|] == s;
    var longer, more := states + [Next(s, a)], actions + [a];
    assert forall k | 0 <= k < |actions| :: longer[k] == states[k] && more[k] == actions[k];
    assert Run(longer, more) && longer[|more|] == Next(s, a);
  }

  /** What arrived, given whether the second result came in time to be taken. */
  function Arrived(first: Result, second: Result, late: bool): seq<Result> {
    if first.Fails? && late then [first] else [first, second]
  }

  /** The main loop as written, for results given in arrival order; `late` says that the second one does
      not arrive within the grace period. The loop is a run of the state machine, and `end` is its last state. */
  method RelayBidirectional(first: Result, second: Result, late: bool)
    returns (result: Option<int>, taken: nat, bothClosed: bool, ghost end: State)
    ensures result == FirstFailure([first, second])
    ensures bothClosed == result.Some?
    ensures taken == if first.Fails? && late then 1 else 2
    ensures Reachable(end) && end.main == Returned(result) && end.received == taken && end.bothClosed == bothClosed
    ensures end.arrivals == Arrived(first, second, late)
  {
    result, taken, bothClosed := None, 0, false;
    FirstFailureAppend([first], second);
    assert [first] + [second] == [first, second];
    end := START;
    StartReachable();
    var i := 0;
    while i < 2
      invariant 0 <= i <= 2 && Reachable(end) && end.main == Receiving(i, result)
      invariant end.received == taken && end.bothClosed == bothClosed
      invariant i == 0 ==> taken == 0 && end == START
      invariant i == 1 ==> taken == 1 && first.Clean? && end.sent == [true, false] && end.arrivals == [first]
      invariant i == 2 ==> result == FirstFailure([first, second]) && taken == (if first.Fails? && late then 1 else 2)
      invariant i == 2 ==> end.arrivals == Arrived(first, second, late)
      invariant i < 2 ==> result == None
      invariant bothClosed == result.Some?
    {
      var err := if taken == 0 then first else second;
      end := Took(end, taken, err);
      taken := taken + 1;
      if err.Clean? {
        i := i + 1;
        continue;
      }
      if result.Some? {
        i := i + 1;
        continue;
      }
      result := Some(err.error);
      if i == 0 {
        if !late {
          taken := taken + 1;
        }
        end := Drained(end, second, late);
        i := i + 1;
      }
      bothClosed := true;
      i := i + 1;
    }
    NextReachable(end, Return);
    end := Next(end, Return);
  }

  /** A direction reports, and the main loop takes the result. */
  lemma Took(s: State, direction: nat, r: Result) returns (t: State)
    requires Reachable(s) && s.main.Receiving? && s.main.i < 2 && s.received == |s.arrivals| == direction
    requires direction < |s.sent| && !s.sent[direction]
    ensures Reachable(t)
    ensures t == Received(s.(sent := s.sent[direction := true], arrivals := s.arrivals + [r]))
  {
    NextReachable(s, Send(direction, r));
    t := Next(s, Send(direction, r));
    NextReachable(t, Receive);
    t := Next(t, Receive);
  }

  /** After the first result was a failure: the other one arrives in time, or the grace period ends. */
  lemma Drained(s: State, second: Result, late: bool) returns (t: State)
    requires Reachable(s) && s.main.Draining? && s.received == |s.arrivals| == 1 && s.sent == [true, false]
    ensures Reachable(t) && t.main == Receiving(2, Some(s.main.error)) && t.bothClosed
    ensures t.received == (if late then 1 else 2) && t.arrivals == s.arrivals + if late then [] else [second]
  {
    t := s;
    if late {
      NextReachable(s, DrainTimeOut);
      t := Next(s, DrainTimeOut);
    } else {
      NextReachable(s, Send(1, second));
      t := Next(s, Send(1, second));
      NextReachable(t, DrainReceive);
      t := Next(t, DrainReceive);
    }
  }
}
