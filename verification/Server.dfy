/** The relay server of pkg/tunnel/server.go: opening a yamux stream for a proxied request under a slot
    limit and cancellation, and the circular audit buffer. */
module Server {
  import opened Sequences
  import opened Text

  // ---- proxyDialContext ----

  const MAX_STREAM_OPENS := 128

  /** The caller inside `proxyDialContext`, and after it returned. */
  datatype Caller = Entering | WaitingSlot | WaitingResult | Refused | LeftEarly | Served

  /** The goroutine that opens the stream; Offering is its select between handing over and giving up. */
  datatype Opener = NotStarted | Opening | Offering | Releasing | Ended

  /** One call. The counters record what happened to its slot and its stream. */
  datatype Call = Call(
    caller: Caller, opener: Opener, cancelled: bool, gotStream: bool,
    taken: nat, released: nat, delivered: nat, closed: nat)

  const NEW_CALL := Call(Entering, NotStarted, false, false, 0, 0, 0, 0)

  /** slots is the number of tokens in the `streamOpenSlots` channel. */
  datatype State = State(calls: seq<Call>, slots: int)

  datatype Action =
    | Arrive
    | CancelContext
    | Refuse
    | Queue
    | TakeSlot
    | LeaveSlotQueue
    | OpenStream
    | FailToOpen
    | HandOver
    | CloseStream
    | LeaveResultWait
    | ReleaseSlot

  /** The call itself is ready for the action. */
  predicate Ready(c: Call, a: Action) {
    match a
    case Arrive => false
    case CancelContext => true
    case Refuse => c.caller == Entering
    case Queue => c.caller == Entering
    case TakeSlot => c.caller == WaitingSlot
    case LeaveSlotQueue => c.caller == WaitingSlot && c.cancelled
    case OpenStream => c.opener == Opening
    case FailToOpen => c.opener == Opening
    case HandOver => c.opener == Offering && c.caller == WaitingResult
    case CloseStream => c.opener == Offering && c.cancelled
    case LeaveResultWait => c.caller == WaitingResult && c.cancelled
    case ReleaseSlot => c.opener == Releasing
  }

  /** Sending on a full slot channel and receiving from an empty one block. */
  predicate Enabled(s: State, i: nat, a: Action) {
    if a == Arrive then i == |s.calls|
    else
      (i < |s.calls| && Ready(s.calls[i], a)
       && (a == TakeSlot ==> s.slots < MAX_STREAM_OPENS) && (a == ReleaseSlot ==> s.slots > 0))
  }

  function Stream(c: Call): nat { if c.gotStream then 1 else 0 }

  function CallAfter(c: Call, a: Action): Call {
    match a
    case Arrive => c
    case CancelContext => c.(cancelled := true)
    case Refuse => c.(caller := Refused)
    case Queue => c.(caller := WaitingSlot)
    case TakeSlot => c.(caller := WaitingResult, opener := Opening, taken := c.taken + 1)
    case LeaveSlotQueue => c.(caller := LeftEarly)
    case OpenStream => c.(opener := Offering, gotStream := true)
    case FailToOpen => c.(opener := Offering)
    case HandOver => c.(caller := Served, opener := Releasing, delivered := c.delivered + Stream(c))
    case CloseStream => c.(opener := Releasing, closed := c.closed + Stream(c))
    case LeaveResultWait => c.(caller := LeftEarly)
    case ReleaseSlot => c.(opener := Ended, released := c.released + 1)
  }

  function Next(s: State, i: nat, a: Action): State
    requires Enabled(s, i, a)
  {
    if a == Arrive then s.(calls := s.calls + [NEW_CALL])
    else State(s.calls[i := CallAfter(s.calls[i], a)],
               s.slots + (if a == TakeSlot then 1 else if a == ReleaseSlot then -1 else 0))
  }

  predicate InFlight(c: Call) {
    c.opener == Opening || c.opener == Offering || c.opener == Releasing
  }

  function CountInFlight(calls: seq<Call>): nat {
    if calls == [] then 0
    else CountInFlight(calls[..|calls| - 1]) + if InFlight(calls[|calls| - 1]) then 1 else 0
  }

  predicate Decided(o: Opener) { o == Releasing || o == Ended }

  /** The books of one call. */
  predicate Balanced(c: Call) {
    && c.taken == (if c.opener == NotStarted then 0 else 1)
    && c.released == (if c.opener == Ended then 1 else 0)
    && (c.caller == Entering || c.caller == WaitingSlot || c.caller == Refused ==> c.opener == NotStarted)
    && (c.caller == WaitingResult || c.caller == Served ==> c.opener != NotStarted)
    && (c.gotStream ==> c.opener == Offering || Decided(c.opener))
    && (c.caller == Served ==> Decided(c.opener))
    && (c.caller == LeftEarly ==> c.cancelled)
    && c.delivered == (if c.caller == Served && c.gotStream then 1 else 0)
    && c.delivered + c.closed == (if c.gotStream && Decided(c.opener) then 1 else 0)
  }

  predicate AllBalanced(calls: seq<Call>) {
    forall i | 0 <= i < |calls| :: Balanced(calls[i])
  }

  ghost predicate Inv(s: State) {
    && AllBalanced(s.calls)
    && s.slots == CountInFlight(s.calls) <= MAX_STREAM_OPENS
  }

  lemma {:induction false} CountUpdate(calls: seq<Call>, i: nat, c: Call)
    requires i < |calls|
    ensures CountInFlight(calls[i := c]) ==
      CountInFlight(calls) - (if InFlight(calls[i]) then 1 else 0) + (if InFlight(c) then 1 else 0)
    decreases |calls|
  {
    var n := |calls| - 1;
    if i == n {
      assert calls[i := c][..n] == calls[..n];
    } else {
      CountUpdate(calls[..n], i, c);
      assert calls[i := c][..n] == calls[..n][i := c];
    }
  }

  lemma BalancedStep(c: Call, a: Action)
    requires Balanced(c) && Ready(c, a)
    ensures Balanced(CallAfter(c, a))
    ensures InFlight(CallAfter(c, a)) == (if a == TakeSlot then true
                                            else if a == ReleaseSlot then false else InFlight(c))
    ensures a == TakeSlot ==> !InFlight(c)
    ensures a == ReleaseSlot ==> InFlight(c)
  {}

  /** A stream that was opened for a caller still waiting is the one it gets; if the caller has left, it is closed. */
  lemma OpenedIsHandedOver(c: Call)
    requires Balanced(c) && Ready(c, OpenStream)
    ensures var offering := CallAfter(c, OpenStream);
      && (c.caller == WaitingResult ==> Ready(offering, HandOver))
      && CallAfter(offering, HandOver).delivered == c.delivered + 1
      && (c.cancelled ==> Ready(offering, CloseStream) && CallAfter(offering, CloseStream).closed == c.closed + 1)
  {}

  /** A failed open is reported to the caller without a stream. */
  lemma FailureIsHandedOver(c: Call)
    requires Balanced(c) && Ready(c, FailToOpen)
    ensures var offering := CallAfter(c, FailToOpen);
      && (c.caller == WaitingResult ==> Ready(offering, HandOver))
      && CallAfter(offering, HandOver).delivered == c.delivered && CallAfter(offering, CloseStream).closed == c.closed
  {}

  lemma CountAppend(calls: seq<Call>, c: Call)
    ensures CountInFlight(calls + [c]) == CountInFlight(calls) + if InFlight(c) then 1 else 0
  {
    var all := calls + [c];
    assert all[..|all| - 1] == calls && all[|all| - 1] == c;
  }

  lemma AppendInv(s: State, c: Call)
    requires Inv(s) && Balanced(c) && !InFlight(c)
    ensures Inv(State(s.calls + [c], s.slots))
  {
    CountAppend(s.calls, c);
  }

  lemma CallInv(s: State, i: nat, c: Call, slots: int)
    requires Inv(s) && i < |s.calls| && Balanced(c)
    requires slots - s.slots == (if InFlight(c) then 1 else 0) - (if InFlight(s.calls[i]) then 1 else 0)
    requires slots <= MAX_STREAM_OPENS
    ensures Inv(State(s.calls[i := c], slots))
  {
    CountUpdate(s.calls, i, c);
  }

  lemma InvStep(s: State, i: nat, a: Action)
    requires Inv(s) && Enabled(s, i, a)
    ensures Inv(Next(s, i, a))
  {
    if a == Arrive {
      AppendInv(s, NEW_CALL);
    } else {
      BalancedStep(s.calls[i], a);
      CallInv(s, i, CallAfter(s.calls[i], a), Next(s, i, a).slots);
    }
  }

  /** A run of the server: any number of calls, interleaved in any way. */
  ghost predicate Run(states: seq<State>, who: seq<nat>, actions: seq<Action>) {
    && |states| == |actions| + 1 && |who| == |actions| && states[0] == State([], 0)
    && forall k | 0 <= k < |actions| ::
         Enabled(states[k], who[k], actions[k]) && states[k + 1] == Next(states[k], who[k], actions[k])
  }

  lemma {:induction false} RunInv(states: seq<State>, who: seq<nat>, actions: seq<Action>)
    requires Run(states, who, actions)
    ensures Inv(states[|actions|])
    decreases |actions|
  {
    if actions != [] {
      var n := |actions| - 1;
      RunInv(states[..n + 1], who[..n], actions[..n]);
      InvStep(states[n], who[n], actions[n]);
    }
  }

  lemma {:induction false} FlightPositive(calls: seq<Call>, i: nat)
    requires i < |calls| && InFlight(calls[i])
    ensures CountInFlight(calls) > 0
    decreases |calls|
  {
    if i < |calls| - 1 { FlightPositive(calls[..|calls| - 1], i); }
  }

  /** Under every interleaving: at most 128 openers are in flight; each opened stream is delivered or closed
      at most once, never both, and exactly once by the time its opener is done; each slot taken is given
      back exactly once. */
  lemma StreamsAndSlots(states: seq<State>, who: seq<nat>, actions: seq<Action>, i: nat)
    requires Run(states, who, actions) && i < |states[|actions|].calls|
    ensures CountInFlight(states[|actions|].calls) <= MAX_STREAM_OPENS
    ensures var c := states[|actions|].calls[i];
      && c.delivered + c.closed <= 1
      && (c.gotStream && Decided(c.opener) ==> c.delivered + c.closed == 1)
      && (c.delivered == 1 ==> c.caller == Served)
      && c.released <= c.taken <= 1
      && (c.opener == Ended ==> c.released == c.taken == 1)
  {
    RunInv(states, who, actions);
  }

  /** An opener whose caller has left can always move on, and giving a slot back never blocks. */
  lemma NoOpenerStuck(states: seq<State>, who: seq<nat>, actions: seq<Action>, i: nat)
    requires Run(states, who, actions) && i < |states[|actions|].calls|
    ensures var s := states[|actions|];
      && (s.calls[i].opener == Offering && s.calls[i].caller != WaitingResult ==> Enabled(s, i, CloseStream))
      && (s.calls[i].opener == Offering && s.calls[i].caller == WaitingResult ==> Enabled(s, i, HandOver))
      && (s.calls[i].opener == Releasing ==> Enabled(s, i, ReleaseSlot))
  {
    RunInv(states, who, actions);
    var calls := states[|actions|].calls;
    if calls[i].opener == Releasing { FlightPositive(calls, i); }
  }

  // ---- the audit buffer ----

  const MAX_AUDIT_EVENTS := 1000

  /** An event; time is None when its text does not parse. */
  datatype Event = Event(time: Option<int>, text: string)

  predicate Recent(e: Event, cutoff: Option<int>) {
    cutoff.None? || (e.time.Some? && e.time.value >= cutoff.value)
  }

  function Filtered(s: seq<Event>, cutoff: Option<int>): seq<Event> {
    if s == [] then []
    else Filtered(s[..|s| - 1], cutoff) + if Recent(s[|s| - 1], cutoff) then [s[|s| - 1]] else []
  }

  /** Exactly the events at or after the cutoff are kept, in their order; an event without a readable time is kept only
      without a cutoff. */
  lemma {:induction false} FilteredMembers(s: seq<Event>, cutoff: Option<int>, e: Event)
    ensures multiset(Filtered(s, cutoff))[e] ==
      if cutoff.None? || (e.time.Some? && cutoff.value <= e.time.value) then multiset(s)[e] else 0
    decreases |s|
  {
    if s != [] {
      FilteredMembers(s[..|s| - 1], cutoff, e);
      assert s == s[..|s| - 1] + [s[|s| - 1]];
    }
  }

  /** The ring read from its start. */
  function Unrolled(events: seq<Event>, start: nat): seq<Event>
    requires start <= |events|
  {
    events[start..] + events[..start]
  }

  class AuditLog {
    var auditEvents: seq<Event>
    var auditStart: nat
    ghost var history: seq<Event>

    /** The ring holds the newest 1000 of all events recorded, in order from its start. */
    ghost predicate Valid()
      reads this
    {
      && |auditEvents| <= MAX_AUDIT_EVENTS && auditStart < MAX_AUDIT_EVENTS
      && (|auditEvents| < MAX_AUDIT_EVENTS ==> auditStart == 0)
      && Unrolled(auditEvents, auditStart) == Newest(history, MAX_AUDIT_EVENTS)
    }

    constructor ()
      ensures Valid() && history == []
    {
      auditEvents, auditStart, history := [], 0, [];
    }

    /** The locked part of `recordRequestAudit`. */
    method Record(event: Event)
      requires Valid()
      modifies this
      ensures Valid() && history == old(history) + [event]
    {
      RingAdvance(auditEvents, auditStart, history, event);
      history := history + [event];
      if |auditEvents| < MAX_AUDIT_EVENTS {
        auditEvents := auditEvents + [event];
        return;
      }
      auditEvents := auditEvents[auditStart := event];
      auditStart := (auditStart + 1) % MAX_AUDIT_EVENTS;
    }

    /** `auditPayload`: the recent part of the buffered events, cut to the newest `limit`, and how many
        were recent. */
    method Payload(cutoff: Option<int>, limit: int) returns (events: seq<Event>, total: nat)
      requires Valid()
      ensures var recent := Filtered(Newest(history, MAX_AUDIT_EVENTS), cutoff);
        total == |recent| && events == if limit > 0 then Newest(recent, limit) else recent
    {
      events := FilterRing(auditEvents, auditStart, cutoff);
      total := |events|;
      if limit > 0 && |events| > limit {
        events := events[|events| - limit..];
      }
    }
  }

  method FilterRing(events: seq<Event>, start: nat, cutoff: Option<int>) returns (filtered: seq<Event>)
    requires start < |events| || start == 0
    ensures filtered == Filtered(Unrolled(events, start), cutoff)
  {
    ghost var ring := Unrolled(events, start);
    filtered := [];
    for i := 0 to |events|
      invariant filtered == Filtered(ring[..i], cutoff)
    {
      RingIndex(events, start, i);
      FilteredNext(ring, i, cutoff);
      var event := events[(start + i) % |events|];
      if cutoff.Some? {
        if event.time.None? || event.time.value < cutoff.value {
          continue;
        }
      }
      filtered := filtered + [event];
    }
    assert ring[..|events|] == ring;
  }

  lemma FilteredNext(s: seq<Event>, i: nat, cutoff: Option<int>)
    requires i < |s|
    ensures Filtered(s[..i + 1], cutoff) == Filtered(s[..i], cutoff) + if Recent(s[i], cutoff) then [s[i]] else []
  {
    assert s[..i + 1][..i] == s[..i];
  }

  lemma RingIndex(events: seq<Event>, start: nat, i: nat)
    requires i < |events| && (start < |events| || start == 0)
    ensures Unrolled(events, start)[i] == events[(start + i) % |events|]
  {
    if start + i < |events| {
      assert (start + i) % |events| == start + i;
    } else {
      assert (start + i) % |events| == start + i - |events|;
    }
  }

  lemma RingAdvance(events: seq<Event>, start: nat, history: seq<Event>, event: Event)
    requires |events| <= MAX_AUDIT_EVENTS && start < MAX_AUDIT_EVENTS
    requires |events| < MAX_AUDIT_EVENTS ==> start == 0
    requires Unrolled(events, start) == Newest(history, MAX_AUDIT_EVENTS)
    ensures |events| < MAX_AUDIT_EVENTS ==>
      Unrolled(events + [event], 0) == Newest(history + [event], MAX_AUDIT_EVENTS)
    ensures |events| == MAX_AUDIT_EVENTS ==>
      Unrolled(events[start := event], (start + 1) % MAX_AUDIT_EVENTS) == Newest(history + [event], MAX_AUDIT_EVENTS)
  {
    var all := history + [event];
    if |events| < MAX_AUDIT_EVENTS {
      assert events == history;
    } else {
      var ring := Unrolled(events, start);
      assert ring[1..] + [event] == Newest(all, MAX_AUDIT_EVENTS);
      if start + 1 < MAX_AUDIT_EVENTS {
        assert events[start := event][start + 1..] == events[start + 1..];
        assert events[start := event][..start + 1] == events[..start] + [event];
        assert ring[1..] == events[start + 1..] + events[..start];
      } else {
        assert ring[1..] == events[..start];
        assert events[start := event] == events[..start] + [event];
      }
    }
  }
}
