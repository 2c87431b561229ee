/** The request log of pkg/tunnel/request_log.go and the polling follower of cmd/requests.go. */
module RequestLog {
  import opened Sequences

  const CAPACITY := 200

  datatype Entry = Entry(number: int, request: string)

  /** Entries numbered 1, 2, 3, ... in the order they were added. */
  predicate Numbered(history: seq<Entry>) {
    forall i | 0 <= i < |history| :: history[i].number == i + 1
  }

  function Reversed(s: seq<Entry>): (r: seq<Entry>)
    ensures |r| == |s| && forall i | 0 <= i < |s| :: r[i] == s[|s| - 1 - i]
  {
    seq(|s|, i requires 0 <= i < |s| => s[|s| - 1 - i])
  }

  class Log {
    var entries: seq<Entry>
    var nextSeq: int
    ghost var history: seq<Entry>

    /** The log holds the newest 200 of all entries added, numbered without gaps. */
    ghost predicate Valid()
      reads this
    {
      nextSeq == |history| && Numbered(history) && entries == Newest(history, CAPACITY)
    }

    constructor ()
      ensures Valid() && history == []
    {
      entries, nextSeq, history := [], 0, [];
    }

    method Add(request: string)
      requires Valid()
      modifies this
      ensures Valid() && history == old(history) + [Entry(|old(history)| + 1, request)]
    {
      nextSeq := nextSeq + 1;
      var entry := Entry(nextSeq, request);
      history := history + [entry];
      if |entries| < CAPACITY {
        entries := entries + [entry];
        return;
      }
      entries := entries[1..] + [entry];
    }

    /** Up to `limit` newest entries, newest first; a limit of zero or less means all. */
    method List(limit: int) returns (out: seq<Entry>)
      requires Valid()
      ensures out == Reversed(Newest(history, if 0 < limit < CAPACITY then limit else CAPACITY))
    {
      var n := if limit <= 0 || limit > |entries| then |entries| else limit;
      out := [];
      var i := |entries| - 1;
      while i >= 0 && |out| < n
        invariant |out| <= n <= |entries| && i == |entries| - 1 - |out|
        invariant forall k | 0 <= k < |out| :: out[k] == entries[|entries| - 1 - k]
        decreases i + 1
      {
        out := out + [entries[i]];
        i := i - 1;
      }
      assert out == Reversed(Newest(entries, n));
      NewestOfNewest(history, n, CAPACITY);
    }
  }

  lemma NewestOfNewest(history: seq<Entry>, n: nat, m: nat)
    requires n <= m
    ensures Newest(Newest(history, m), n) == Newest(history, n)
  {}

  // ---- following ----

  /** What a poll at a time with `count` entries returns. */
  function Polled(history: seq<Entry>, count: nat): seq<Entry>
    requires count <= |history|
  {
    Reversed(Newest(history[..count], CAPACITY))
  }

  /** Counts of entries at successive polls of one server. */
  predicate Polls(history: seq<Entry>, counts: seq<nat>) {
    (forall k | 0 <= k < |counts| :: counts[k] <= |history|)
    && forall j, k | 0 <= j < k < |counts| :: counts[j] <= counts[k]
  }

  function LastCount(counts: seq<nat>): nat {
    if counts == [] then 0 else counts[|counts| - 1]
  }

  function Max(a: int, b: int): int { if a > b then a else b }

  /** What following prints over all polls: each poll adds what is new and still in the log. */
  function Printed(history: seq<Entry>, counts: seq<nat>): seq<Entry>
    requires Polls(history, counts)
  {
    if counts == [] then []
    else
      var n := |counts| - 1;
      var from := Max(LastCount(counts[..n]), counts[n] - CAPACITY);
      Printed(history, counts[..n]) + history[from..counts[n]]
  }

  /** The --follow loop of `runRequests`, on the payloads of its polls. */
  method Follow(payloads: seq<seq<Entry>>, ghost history: seq<Entry>, ghost counts: seq<nat>)
    returns (printed: seq<Entry>)
    requires Numbered(history) && Polls(history, counts) && |payloads| == |counts|
    requires forall k | 0 <= k < |counts| :: payloads[k] == Polled(history, counts[k])
    ensures printed == Printed(history, counts)
  {
    printed := [];
    var lastSeq := 0;
    for k := 0 to |payloads|
      invariant printed == Printed(history, counts[..k])
      invariant lastSeq == LastCount(counts[..k])
    {
      assert counts[..k + 1][..k] == counts[..k];
      printed, lastSeq := FollowOnce(payloads[k], printed, lastSeq, history, counts[k]);
    }
    assert counts[..|payloads|] == counts;
  }

  lemma UnseenAt(unseen: seq<Entry>, added: seq<Entry>, i: nat)
    requires Reversed(unseen) == added && i < |unseen|
    ensures unseen[i] == added[|unseen| - 1 - i]
  {
    assert Reversed(unseen)[|unseen| - 1 - i] == unseen[i];
  }

  lemma OneMore<T>(s: seq<T>, i: nat, j: nat)
    requires i <= j < |s|
    ensures s[i..j + 1] == s[i..j] + [s[j]]
  {}

  /** One poll: collect what is new, print it oldest first. */
  method FollowOnce(payload: seq<Entry>, before: seq<Entry>, last: int, ghost history: seq<Entry>, ghost count: nat)
    returns (printed: seq<Entry>, lastSeq: int)
    requires Numbered(history) && count <= |history| && payload == Polled(history, count) && 0 <= last <= count
    ensures printed == before + history[Max(last, count - CAPACITY)..count] && lastSeq == count
  {
    var unseen := UnseenEntries(payload, last, history, count);
    ghost var from := Max(last, count - CAPACITY);
    assert |unseen| == |history[from..count]| == count - from;
    printed, lastSeq := before, last;
    var i := |unseen| - 1;
    while i >= 0
      invariant -1 <= i < |unseen|
      invariant printed == before + history[from..count - 1 - i]
      invariant lastSeq == if i == |unseen| - 1 then last else count - 1 - i
      decreases i + 1
    {
      var entry := unseen[i];
      UnseenAt(unseen, history[from..count], i);
      if entry.number > lastSeq {
        lastSeq := entry.number;
      }
      printed := printed + [entry];
      OneMore(history, from, count - 1 - i);
      i := i - 1;
    }
  }

  /** The entries of one payload that are newer than the last one printed. */
  method UnseenEntries(payload: seq<Entry>, lastSeq: int, ghost history: seq<Entry>, ghost count: nat)
    returns (unseen: seq<Entry>)
    requires Numbered(history) && count <= |history| && payload == Polled(history, count) && 0 <= lastSeq <= count
    ensures Reversed(unseen) == history[Max(lastSeq, count - CAPACITY)..count]
  {
    unseen := [];
    ghost var from := Max(lastSeq, count - CAPACITY);
    for j := 0 to |payload|
      invariant |unseen| == if j <= count - from then j else count - from
      invariant forall i | 0 <= i < |unseen| :: unseen[i] == history[count - 1 - i]
    {
      assert payload[j] == history[count - 1 - j];
      if payload[j].number > lastSeq {
        unseen := unseen + [payload[j]];
      }
    }
  }

  /** Entries of the history up to `bound`, in strictly increasing order of their numbers. */
  predicate InOrder(p: seq<Entry>, history: seq<Entry>, bound: nat) {
    && (forall i | 0 <= i < |p| :: 1 <= p[i].number <= bound <= |history| && p[i] == history[p[i].number - 1])
    && forall i, j | 0 <= i < j < |p| :: p[i].number < p[j].number
  }

  lemma InOrderExtended(p: seq<Entry>, history: seq<Entry>, bound: nat, from: nat, to: nat)
    requires Numbered(history) && InOrder(p, history, bound) && bound <= from <= to <= |history|
    ensures InOrder(p + history[from..to], history, to)
  {
    var q := p + history[from..to];
    forall i | |p| <= i < |q| ensures q[i] == history[from + i - |p|] && q[i].number == from + i - |p| + 1 {}
  }

  /** Sequence numbers are printed in strictly increasing order, so none is printed twice. */
  lemma {:induction false} PrintedIncreasing(history: seq<Entry>, counts: seq<nat>)
    requires Numbered(history) && Polls(history, counts)
    ensures InOrder(Printed(history, counts), history, LastCount(counts))
    decreases |counts|
  {
    if counts != [] {
      var n := |counts| - 1;
      PrintedIncreasing(history, counts[..n]);
      var last := LastCount(counts[..n]);
      InOrderExtended(Printed(history, counts[..n]), history, last, Max(last, counts[n] - CAPACITY), counts[n]);
    }
  }

  /** The gap before the k-th poll, counting from the start of the log for the first. */
  function Gap(counts: seq<nat>, k: nat): int
    requires k < |counts|
  {
    counts[k] - LastCount(counts[..k])
  }

  /** What the last poll adds. */
  lemma PollStep(history: seq<Entry>, counts: seq<nat>)
    requires Polls(history, counts) && counts != []
    ensures var n := |counts| - 1; var last := LastCount(counts[..n]);
      && Polls(history, counts[..n]) && last <= counts[n] == LastCount(counts)
      && |Printed(history, counts)| == |Printed(history, counts[..n])| + counts[n] - Max(last, counts[n] - CAPACITY)
  {}

  lemma GapBefore(counts: seq<nat>, k: nat)
    requires k < |counts| - 1
    ensures Gap(counts[..|counts| - 1], k) == Gap(counts, k)
  {
    assert counts[..|counts| - 1][..k] == counts[..k];
  }

  /** Printing never gets ahead of the log, and one wide gap leaves it behind for good. */
  lemma {:induction false} PrintedLength(history: seq<Entry>, counts: seq<nat>, k: nat)
    requires Polls(history, counts)
    ensures |Printed(history, counts)| <= LastCount(counts)
    ensures k < |counts| && Gap(counts, k) > CAPACITY ==> |Printed(history, counts)| < LastCount(counts)
    decreases |counts|
  {
    if counts != [] {
      var n := |counts| - 1;
      PollStep(history, counts);
      PrintedLength(history, counts[..n], k);
      if k < n { GapBefore(counts, k); }
    }
  }

  lemma Adjacent<T>(s: seq<T>, i: nat, j: nat)
    requires i <= j <= |s|
    ensures s[..i] + s[i..j] == s[..j]
  {}

  lemma {:induction false} SmallGapsPrintAll(history: seq<Entry>, counts: seq<nat>)
    requires Polls(history, counts) && forall k | 0 <= k < |counts| :: Gap(counts, k) <= CAPACITY
    ensures Printed(history, counts) == history[..LastCount(counts)]
    decreases |counts|
  {
    if counts != [] {
      var n := |counts| - 1;
      forall k | 0 <= k < n ensures Gap(counts[..n], k) <= CAPACITY {
        GapBefore(counts, k);
        assert Gap(counts, k) <= CAPACITY;
      }
      SmallGapsPrintAll(history, counts[..n]);
      assert Gap(counts, n) <= CAPACITY;
      Adjacent(history, LastCount(counts[..n]), counts[n]);
    }
  }

  /** Nothing is missed exactly when at most 200 entries arrive between consecutive polls (and before the
      first one). */
  lemma CompleteIffSmallGaps(history: seq<Entry>, counts: seq<nat>)
    requires Polls(history, counts)
    ensures Printed(history, counts) == history[..LastCount(counts)] <==>
      forall k | 0 <= k < |counts| :: Gap(counts, k) <= CAPACITY
  {
    forall k | 0 <= k < |counts| && Gap(counts, k) > CAPACITY ensures |Printed(history, counts)| < LastCount(counts) {
      PrintedLength(history, counts, k);
    }
    if forall k | 0 <= k < |counts| :: Gap(counts, k) <= CAPACITY {
      SmallGapsPrintAll(history, counts);
    }
  }
}
