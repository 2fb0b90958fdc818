// The sliding-window velocity store: it forgets events as it goes, and what that does to its counts.
module Velocity {

  datatype Verdict = ALLOW | REVIEW | BLOCK

  datatype Reason = AmountExceedsThreshold | VelocityExceedsThreshold

  datatype Thresholds = Thresholds(maxAmount: int, maxPerWindow: int)

  // Times are in milliseconds.
  datatype Event = Event(id: nat, tenant: nat, amount: int, at: int)

  datatype Decision = Decision(eventId: nat, tenant: nat, verdict: Verdict, score: nat, reasons: seq<Reason>)

  function EvaluateRisk(e: Event, count: nat, t: Thresholds): Decision {
    if e.amount > t.maxAmount then Decision(e.id, e.tenant, BLOCK, count, [AmountExceedsThreshold])
    else if count >= t.maxPerWindow then Decision(e.id, e.tenant, REVIEW, count, [VelocityExceedsThreshold])
    else Decision(e.id, e.tenant, ALLOW, count, [])
  }

  // The times at or after the cutoff.
  function Pruned(times: seq<int>, cutoff: int): seq<int> {
    if times == [] then []
    else
      var n := |times| - 1;
      Pruned(times[..n], cutoff) + if times[n] >= cutoff then [times[n]] else []
  }

  function Cutoff(at: int, windowSeconds: nat): int {
    at - windowSeconds * 1000
  }

  // A call on the store for one key: it drops what is older than its cutoff, and an add then appends.
  datatype Call = Added(at: int, cutoff: int) | Counted(cutoff: int)

  function TimeOf(call: Call): seq<int> {
    if call.Added? then [call.at] else []
  }

  // What the store holds for a key after its calls.
  function Kept(calls: seq<Call>): seq<int> {
    if calls == [] then []
    else
      var n := |calls| - 1;
      Pruned(Kept(calls[..n]), calls[n].cutoff) + TimeOf(calls[n])
  }

  // What a store that never forgets would hold.
  function Log(calls: seq<Call>): seq<int> {
    if calls == [] then []
    else
      var n := |calls| - 1;
      Log(calls[..n]) + TimeOf(calls[n])
  }

  // `calls` is the history of each key, which the store does not have.
  class MemoryVelocityStore {
    var events: map<nat, seq<int>>
    ghost var calls: map<nat, seq<Call>>

    ghost predicate Valid()
      reads this
    {
      forall key :: Listed(key) == Kept(CallsOf(key))
    }

    constructor ()
      ensures Valid() && forall key :: CallsOf(key) == []
    {
      events, calls := map[], map[];
    }

    function Listed(key: nat): seq<int>
      reads this`events
    {
      if key in events then events[key] else []
    }

    ghost function CallsOf(key: nat): seq<Call>
      reads this`calls
    {
      if key in calls then calls[key] else []
    }

    method Prune(key: nat, cutoff: int)
      modifies this`events
      ensures Listed(key) == Pruned(old(Listed(key)), cutoff)
      ensures forall other :: other != key ==> Listed(other) == old(Listed(other))
    {
      if key in events {
        events := events[key := Pruned(events[key], cutoff)];
      }
    }

    method Add(key: nat, at: int, windowSeconds: nat)
      requires Valid()
      modifies this
      ensures Valid() && CallsOf(key) == old(CallsOf(key)) + [Added(at, Cutoff(at, windowSeconds))]
      ensures forall other :: other != key ==> CallsOf(other) == old(CallsOf(other))
    {
      KeptAfter(CallsOf(key), Added(at, Cutoff(at, windowSeconds)));
      Prune(key, Cutoff(at, windowSeconds));
      events := events[key := Listed(key) + [at]];
      calls := calls[key := CallsOf(key) + [Added(at, Cutoff(at, windowSeconds))]];
      assert forall other :: other != key ==> CallsOf(other) == old(CallsOf(other));
    }

    method Count(key: nat, at: int, windowSeconds: nat) returns (n: nat)
      requires Valid()
      modifies this
      ensures Valid() && CallsOf(key) == old(CallsOf(key)) + [Counted(Cutoff(at, windowSeconds))]
      ensures forall other :: other != key ==> CallsOf(other) == old(CallsOf(other))
      ensures n == |Pruned(Kept(old(CallsOf(key))), Cutoff(at, windowSeconds))|
    {
      KeptAfter(CallsOf(key), Counted(Cutoff(at, windowSeconds)));
      Prune(key, Cutoff(at, windowSeconds));
      calls := calls[key := CallsOf(key) + [Counted(Cutoff(at, windowSeconds))]];
      assert forall other :: other != key ==> CallsOf(other) == old(CallsOf(other));
      n := |Listed(key)|;
    }
  }

  lemma KeptAfter(calls: seq<Call>, call: Call)
    ensures Kept(calls + [call]) == Pruned(Kept(calls), call.cutoff) + TimeOf(call)
    ensures call.Counted? ==> Kept(calls + [call]) == Pruned(Kept(calls), call.cutoff)
    ensures Log(calls + [call]) == Log(calls) + TimeOf(call)
  {
    assert (calls + [call])[..|calls|] == calls;
  }

  // Counts before recording, on a store that others may be calling too.
  class Evaluator {
    const store: MemoryVelocityStore
    const windowSeconds: nat
    const thresholds: Thresholds

    constructor (store: MemoryVelocityStore, windowSeconds: nat, thresholds: Thresholds)
      ensures this.store == store && this.windowSeconds == windowSeconds && this.thresholds == thresholds
    {
      this.store, this.windowSeconds, this.thresholds := store, windowSeconds, thresholds;
    }

    // The score is what the store has left of the tenant's history; `ScoreIsPriorInWindow` says when
    // that is all of the window.
    method Evaluate(e: Event) returns (d: Decision)
      requires store.Valid()
      modifies store
      ensures store.Valid()
      ensures var c := Cutoff(e.at, windowSeconds);
              && store.CallsOf(e.tenant) == old(store.CallsOf(e.tenant)) + [Counted(c), Added(e.at, c)]
              && d.score == |Pruned(Kept(old(store.CallsOf(e.tenant))), c)|
      ensures forall other :: other != e.tenant ==> store.CallsOf(other) == old(store.CallsOf(other))
      ensures d == EvaluateRisk(e, d.score, thresholds)
    {
      var count := store.Count(e.tenant, e.at, windowSeconds);
      store.Add(e.tenant, e.at, windowSeconds);
      d := EvaluateRisk(e, count, thresholds);
    }
  }

  // ---------------------------------------------------------------------------
  // What pruning costs
  // ---------------------------------------------------------------------------

  lemma {:induction false} PrunedConcat(a: seq<int>, b: seq<int>, cutoff: int)
    ensures Pruned(a + b, cutoff) == Pruned(a, cutoff) + Pruned(b, cutoff)
  {
    if b == [] {
      assert a + b == a;
    } else {
      assert (a + b)[..|a + b| - 1] == a + b[..|b| - 1];
      PrunedConcat(a, b[..|b| - 1], cutoff);
    }
  }

  // Pruning twice keeps what the later cutoff keeps.
  lemma {:induction false} PruneTwice(times: seq<int>, c: int, d: int)
    ensures Pruned(Pruned(times, c), d) == Pruned(times, if c <= d then d else c)
  {
    if times != [] {
      var n := |times| - 1;
      PruneTwice(times[..n], c, d);
      PrunedConcat(Pruned(times[..n], c), if times[n] >= c then [times[n]] else [], d);
      assert times[n] >= c ==> [times[n]][..0] == [];
    }
  }

  // No call drops an event of the window added before it.
  predicate NothingLost(calls: seq<Call>, cutoff: int) {
    forall j, k :: 0 <= j < k < |calls| && calls[j].Added? && calls[j].at >= cutoff ==> calls[j].at >= calls[k].cutoff
  }

  // Every logged time past c is past d.
  predicate NoneBetween(calls: seq<Call>, c: int, d: int) {
    forall j :: 0 <= j < |calls| && calls[j].Added? && calls[j].at >= c ==> calls[j].at >= d
  }

  lemma {:induction false} LogPrunedShorter(calls: seq<Call>, c: int, d: int)
    requires c <= d
    ensures |Pruned(Log(calls), d)| <= |Pruned(Log(calls), c)|
    ensures |Pruned(Log(calls), d)| == |Pruned(Log(calls), c)| <==> NoneBetween(calls, c, d)
  {
    if calls != [] {
      var n := |calls| - 1;
      LogPrunedShorter(calls[..n], c, d);
      LogPrunedSnoc(calls, c);
      LogPrunedSnoc(calls, d);
      NoneBetweenSnoc(calls, c, d);
    }
  }

  lemma LogPrunedSnoc(calls: seq<Call>, cutoff: int)
    requires calls != []
    ensures var n := |calls| - 1;
            |Pruned(Log(calls), cutoff)|
            == |Pruned(Log(calls[..n]), cutoff)| + if calls[n].Added? && calls[n].at >= cutoff then 1 else 0
  {
    var n := |calls| - 1;
    PrunedConcat(Log(calls[..n]), TimeOf(calls[n]), cutoff);
    PrunedTime(calls[n], cutoff);
  }

  lemma NoneBetweenSnoc(calls: seq<Call>, c: int, d: int)
    requires calls != []
    ensures var n := |calls| - 1;
            NoneBetween(calls, c, d)
            <==> NoneBetween(calls[..n], c, d) && (calls[n].Added? && calls[n].at >= c ==> calls[n].at >= d)
  {
    var n := |calls| - 1;
    assert forall j :: 0 <= j < n ==> calls[..n][j] == calls[j];
  }

  lemma PrunedTime(call: Call, cutoff: int)
    ensures Pruned(TimeOf(call), cutoff) == if call.Added? && call.at >= cutoff then [call.at] else []
  {
    if call.Added? { assert [call.at][..0] == []; }
  }

  // Whatever was added and counted, in whatever order of times and with whatever windows: the store
  // counts what a log would count exactly when nothing in the window was lost; otherwise it counts less.
  lemma {:induction false} CountsAgreeExactlyWhen(calls: seq<Call>, cutoff: int)
    ensures |Pruned(Kept(calls), cutoff)| <= |Pruned(Log(calls), cutoff)|
    ensures |Pruned(Kept(calls), cutoff)| == |Pruned(Log(calls), cutoff)| <==> NothingLost(calls, cutoff)
  {
    if calls != [] {
      var n := |calls| - 1;
      var before, c := calls[..n], calls[n].cutoff;
      var later := if c <= cutoff then cutoff else c;
      PrunedConcat(Pruned(Kept(before), c), TimeOf(calls[n]), cutoff);
      PrunedConcat(Log(before), TimeOf(calls[n]), cutoff);
      PruneTwice(Kept(before), c, cutoff);
      CountsAgreeExactlyWhen(before, later);
      LogPrunedShorter(before, cutoff, later);
      LostSplits(calls, cutoff);
    }
  }

  // Losing nothing, split into the last call's doing and the earlier ones'.
  lemma LostSplits(calls: seq<Call>, cutoff: int)
    requires calls != []
    ensures var n := |calls| - 1;
            var later := if calls[n].cutoff <= cutoff then cutoff else calls[n].cutoff;
            NothingLost(calls, cutoff) <==> NoneBetween(calls[..n], cutoff, later) && NothingLost(calls[..n], later)
  {
    var n := |calls| - 1;
    var before, c := calls[..n], calls[n].cutoff;
    var later := if c <= cutoff then cutoff else c;
    assert forall j :: 0 <= j < n ==> before[j] == calls[j];
    if NoneBetween(before, cutoff, later) && NothingLost(before, later) {
      forall j, k | 0 <= j < k < |calls| && calls[j].Added? && calls[j].at >= cutoff
        ensures calls[j].at >= calls[k].cutoff
      {
        assert before[j].at >= later;
        if k < n { assert before[k] == calls[k]; }
      }
    }
  }

  // A query whose window starts no earlier than that of every call before it, as when times never
  // decrease, counts every event added at or after the start of its window.
  lemma LatestQueryIsExact(calls: seq<Call>, cutoff: int)
    requires forall k :: 0 <= k < |calls| ==> calls[k].cutoff <= cutoff
    ensures |Pruned(Kept(calls), cutoff)| == |Pruned(Log(calls), cutoff)|
  {
    CountsAgreeExactlyWhen(calls, cutoff);
  }

  // The positions of the events added at or after the cutoff.
  function AddedSince(calls: seq<Call>, cutoff: int): set<nat> {
    set k | 0 <= k < |calls| && calls[k].Added? && cutoff <= calls[k].at
  }

  // The score of an evaluation is then the number of the tenant's events added before it in its window.
  lemma ScoreIsPriorInWindow(calls: seq<Call>, cutoff: int)
    requires forall k :: 0 <= k < |calls| ==> calls[k].cutoff <= cutoff
    ensures |Pruned(Kept(calls), cutoff)| == |AddedSince(calls, cutoff)|
  {
    LatestQueryIsExact(calls, cutoff);
    LogCounts(calls, cutoff);
  }

  // So an event is blocked exactly when its amount is over the maximum, and otherwise sent to review exactly
  // when the tenant already had as many events in the window as it may have; each with its one reason.
  lemma VerdictExactlyWhen(calls: seq<Call>, windowSeconds: nat, e: Event, t: Thresholds)
    requires forall k :: 0 <= k < |calls| ==> calls[k].cutoff <= e.at - 1000 * windowSeconds
    ensures var d := EvaluateRisk(e, |Pruned(Kept(calls), Cutoff(e.at, windowSeconds))|, t);
            var prior := |AddedSince(calls, e.at - 1000 * windowSeconds)|;
            && d.eventId == e.id && d.tenant == e.tenant && d.score == prior
            && (d.verdict == BLOCK <==> t.maxAmount < e.amount)
            && (d.verdict == REVIEW <==> e.amount <= t.maxAmount && t.maxPerWindow <= prior)
            && (d.reasons == match d.verdict
                             case BLOCK => [AmountExceedsThreshold]
                             case REVIEW => [VelocityExceedsThreshold]
                             case ALLOW => [])
  {
    ScoreIsPriorInWindow(calls, e.at - 1000 * windowSeconds);
  }

  lemma {:induction false} LogCounts(calls: seq<Call>, cutoff: int)
    ensures |Pruned(Log(calls), cutoff)| == |AddedSince(calls, cutoff)|
  {
    if calls != [] {
      var n := |calls| - 1;
      LogCounts(calls[..n], cutoff);
      LogPrunedSnoc(calls, cutoff);
      AddedSinceSnoc(calls, cutoff);
    }
  }

  lemma AddedSinceSnoc(calls: seq<Call>, cutoff: int)
    requires calls != []
    ensures var n := |calls| - 1;
            |AddedSince(calls, cutoff)| == |AddedSince(calls[..n], cutoff)|
                + if calls[n].Added? && cutoff <= calls[n].at then 1 else 0
  {
    var n := |calls| - 1;
    assert AddedSince(calls, cutoff) == AddedSince(calls[..n], cutoff)
           + if calls[n].Added? && cutoff <= calls[n].at then {n} else {};
  }

  // A clock running backwards undercounts, with a window of a second: after an event at 0 s, an event or
  // a mere count at 2 s makes a query at 0.5 s miss the first.
  lemma BackwardsUndercounts(other: Call)
    requires other == Added(2000, Cutoff(2000, 1)) || other == Counted(Cutoff(2000, 1))
    ensures var calls := [Added(0, Cutoff(0, 1)), other];
            |Pruned(Kept(calls), Cutoff(500, 1))| == |Pruned(Log(calls), Cutoff(500, 1))| - 1
  {
    var first := Added(0, Cutoff(0, 1));
    FirstIsDropped(first, other);
    PrunedConcat(TimeOf(first), TimeOf(other), Cutoff(500, 1));
    PrunedTime(first, Cutoff(500, 1));
  }

  lemma FirstIsDropped(first: Call, other: Call)
    requires first.Added? && first.at < other.cutoff
    ensures Kept([first, other]) == TimeOf(other) && Log([first, other]) == TimeOf(first) + TimeOf(other)
  {
    KeptAfter([], first);
    KeptAfter([first], other);
    assert [] + [first] == [first] && [first] + [other] == [first, other];
    PrunedTime(first, other.cutoff);
    assert Kept([first]) == [] + TimeOf(first) == TimeOf(first) && Log([first]) == [] + TimeOf(first) == TimeOf(first);
  }
}
