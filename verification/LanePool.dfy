/**
 The lane pool: lanes share a claim counter and fill one results array. A lane runs from one await to the
 next as one step; `run` is what running a test answers, None being a rejected promise.
 */
module LanePool {
  import opened Prelude

  /** An idle lane is at its loop head or has returned. */
  datatype Lane = Idle | Running(index: nat) | Rejected(index: nat)

  /** `started` lists the tests begun, in order, as the progress lines do. */
  datatype State<+T> = State(next: nat, lanes: seq<Lane>, results: seq<Option<T>>, started: seq<nat>)

  datatype Reply<+T> = Pending | Resolved(results: seq<Option<T>>) | Failed

  // ---------------------------------------------------------------------------------------------
  // The machine
  // ---------------------------------------------------------------------------------------------

  function LaneCount(concurrency: int, n: nat): nat {
    Max(0, Min(concurrency, n))
  }

  /** The loop head: claim the next index, and either start its test or return. */
  function Claim<T>(s: State<T>, lane: nat): State<T>
    requires lane < |s.lanes|
  {
    if s.next >= |s.results| then s.(next := s.next + 1)
    else s.(next := s.next + 1, lanes := s.lanes[lane := Running(s.next)], started := s.started + [s.next])
  }

  /** The launching loop: each lane runs up to its first await before the next one is created. */
  function Launch<T>(n: nat, count: nat): State<T> {
    if count == 0 then State(0, [], seq(n, _ => None), [])
    else
      var s := Launch<T>(n, count - 1);
      Claim(s.(lanes := s.lanes + [Idle]), |s.lanes|)
  }

  predicate CanSettle<T>(s: State<T>, lane: nat) {
    lane < |s.lanes| && s.lanes[lane].Running? && s.lanes[lane].index < |s.results|
  }

  function Filled<T>(s: State<T>, lane: nat, outcome: Option<T>): State<T>
    requires CanSettle(s, lane)
  {
    s.(results := s.results[s.lanes[lane].index := outcome], lanes := s.lanes[lane := Idle])
  }

  /** The run a lane awaits settles. */
  function Settle<T>(s: State<T>, lane: nat, outcome: Option<T>): State<T>
    requires CanSettle(s, lane)
  {
    if outcome.None? then s.(lanes := s.lanes[lane := Rejected(s.lanes[lane].index)])
    else Claim(Filled(s, lane, outcome), lane)
  }

  predicate AnyRejected(lanes: seq<Lane>) {
    exists lane :: 0 <= lane < |lanes| && lanes[lane].Rejected?
  }

  predicate AnyRunning(lanes: seq<Lane>) {
    exists lane :: 0 <= lane < |lanes| && lanes[lane].Running?
  }

  /** What awaiting all lanes answers: the first rejection at once, else the results when every lane is done. */
  function ReplyOf<T>(s: State<T>): Reply<T> {
    if AnyRejected(s.lanes) then Failed else if AnyRunning(s.lanes) then Pending else Resolved(s.results)
  }

  /** A schedule names, one after another, the lane whose run settles. */
  predicate Legal<T>(n: nat, concurrency: int, schedule: seq<nat>, run: nat -> Option<T>)
    decreases |schedule|, 0
  {
    schedule == [] ||
    (var rest := schedule[..|schedule| - 1];
     Legal(n, concurrency, rest, run) &&
     CanSettle(After(n, concurrency, rest, run), schedule[|schedule| - 1]))
  }

  function After<T>(n: nat, concurrency: int, schedule: seq<nat>, run: nat -> Option<T>): State<T>
    requires Legal(n, concurrency, schedule, run)
    decreases |schedule|, 1
  {
    if schedule == [] then Launch(n, LaneCount(concurrency, n))
    else
      var s := After(n, concurrency, schedule[..|schedule| - 1], run);
      var lane := schedule[|schedule| - 1];
      Settle(s, lane, run(s.lanes[lane].index))
  }

  // ---------------------------------------------------------------------------------------------
  // The invariant
  // ---------------------------------------------------------------------------------------------

  predicate Holds(lane: Lane, index: nat) {
    !lane.Idle? && lane.index == index
  }

  ghost predicate Placed<T>(s: State<T>, index: nat)
    requires index < |s.results|
  {
    s.results[index].Some? || exists lane :: 0 <= lane < |s.lanes| && Holds(s.lanes[lane], index)
  }

  /** Every started index is in exactly one place, a lane or its result slot; no other index is anywhere. */
  ghost predicate Core<T>(s: State<T>, run: nat -> Option<T>) {
    var n := |s.results|;
    && s.started == seq(Min(s.next, n), i => i)
    && (forall i | 0 <= i < n && s.results[i].Some? :: i < s.next && s.results[i] == run(i))
    && (forall i | 0 <= i < n && i < s.next :: Placed(s, i))
    && (forall k | 0 <= k < |s.lanes| && !s.lanes[k].Idle? ::
          s.lanes[k].index < n && s.lanes[k].index < s.next && s.results[s.lanes[k].index].None?)
    && (forall j, k | 0 <= j < k < |s.lanes| && !s.lanes[j].Idle? && !s.lanes[k].Idle? ::
          s.lanes[j].index != s.lanes[k].index)
    && (forall k | 0 <= k < |s.lanes| && s.lanes[k].Rejected? :: run(s.lanes[k].index).None?)
  }

  ghost predicate Inv<T>(s: State<T>, run: nat -> Option<T>) {
    && Core(s, run)
    && ((exists k :: 0 <= k < |s.lanes| && s.lanes[k].Idle?) ==> |s.results| <= s.next)
    && (s.next == 0 <==> s.lanes == [])
  }

  lemma {:induction false} ClaimKeepsCore<T>(s: State<T>, lane: nat, run: nat -> Option<T>)
    requires lane < |s.lanes| && s.lanes[lane].Idle? && Core(s, run)
    ensures Core(Claim(s, lane), run)
  {
    var t := Claim(s, lane);
    assert t.started == seq(Min(t.next, |s.results|), i => i);
    forall i | 0 <= i < |s.results| && i < t.next
      ensures Placed(t, i)
    {
      if i == s.next {
        assert Holds(t.lanes[lane], i);
      } else {
        assert Placed(s, i);
        if s.results[i].None? {
          var k :| 0 <= k < |s.lanes| && Holds(s.lanes[k], i);
          assert Holds(t.lanes[k], i);
        }
      }
    }
  }

  lemma {:induction false} FilledKeepsCore<T>(s: State<T>, lane: nat, run: nat -> Option<T>)
    requires CanSettle(s, lane) && Core(s, run) && run(s.lanes[lane].index).Some?
    ensures Core(Filled(s, lane, run(s.lanes[lane].index)), run)
  {
    var t := Filled(s, lane, run(s.lanes[lane].index));
    forall i | 0 <= i < |s.results| && i < t.next
      ensures Placed(t, i)
    {
      assert Placed(s, i);
      if t.results[i].None? {
        var k :| 0 <= k < |s.lanes| && Holds(s.lanes[k], i);
        assert Holds(t.lanes[k], i);
      }
    }
  }

  lemma {:induction false} RejectedKeepsCore<T>(s: State<T>, lane: nat, run: nat -> Option<T>)
    requires CanSettle(s, lane) && Core(s, run) && run(s.lanes[lane].index).None?
    ensures Core(Settle(s, lane, None), run)
  {
    var t := Settle(s, lane, None);
    forall i | 0 <= i < |s.results| && i < t.next
      ensures Placed(t, i)
    {
      assert Placed(s, i);
      if s.results[i].None? {
        var k :| 0 <= k < |s.lanes| && Holds(s.lanes[k], i);
        assert Holds(t.lanes[k], i);
      }
    }
  }

  lemma {:induction false} SettleKeepsInv<T>(s: State<T>, lane: nat, run: nat -> Option<T>)
    requires CanSettle(s, lane) && Inv(s, run)
    ensures Inv(Settle(s, lane, run(s.lanes[lane].index)), run)
  {
    var outcome := run(s.lanes[lane].index);
    if outcome.Some? {
      FilledKeepsCore(s, lane, run);
      ClaimKeepsCore(Filled(s, lane, outcome), lane, run);
    } else {
      RejectedKeepsCore(s, lane, run);
    }
    var t := Settle(s, lane, outcome);
    if k :| 0 <= k < |t.lanes| && t.lanes[k].Idle? {
      assert k != lane ==> s.lanes[k].Idle?;
    }
  }

  function Runs(count: nat): seq<Lane> {
    seq(count, i requires 0 <= i => Running(i))
  }

  /** At launch lane k runs test k. */
  lemma {:induction false} Launched<T>(n: nat, count: nat)
    requires count <= n
    ensures Launch<T>(n, count) == State(count, Runs(count), seq(n, _ => None), seq(count, i => i))
  {
    if count > 0 {
      Launched<T>(n, count - 1);
      assert (Runs(count - 1) + [Idle])[count - 1 := Running(count - 1)] == Runs(count);
      assert seq(count - 1, i => i) + [count - 1] == seq(count, i => i);
    }
  }

  lemma {:induction false} LaunchInv<T>(n: nat, count: nat, run: nat -> Option<T>)
    requires count <= n
    ensures Inv(Launch<T>(n, count), run)
  {
    Launched<T>(n, count);
    var s := Launch<T>(n, count);
    forall i | 0 <= i < n && i < s.next
      ensures Placed(s, i)
    {
      assert Holds(s.lanes[i], i);
    }
  }

  // ---------------------------------------------------------------------------------------------
  // Over every schedule
  // ---------------------------------------------------------------------------------------------

  function HeldWeight(lane: Lane): nat {
    if lane.Running? then 1 else 0
  }

  /** How many tests have been started and have not settled. */
  function InFlight<T>(s: State<T>): nat {
    Total(s.lanes, HeldWeight)
  }

  lemma {:induction false} AllInFlight(lanes: seq<Lane>)
    requires forall k | 0 <= k < |lanes| :: lanes[k].Running?
    ensures Total(lanes, HeldWeight) == |lanes|
  {
    if lanes != [] {
      AllInFlight(lanes[1..]);
    }
  }

  /** A settlement takes one test out of flight and starts at most one. */
  lemma {:induction false} SettleInFlight<T>(s: State<T>, lane: nat, outcome: Option<T>)
    requires CanSettle(s, lane)
    ensures var t := Settle(s, lane, outcome);
            |t.started| - InFlight(t) == |s.started| - InFlight(s) + 1
  {
    var t := Settle(s, lane, outcome);
    TotalUpdate(s.lanes, lane, t.lanes[lane], HeldWeight);
    assert t.lanes == s.lanes[lane := t.lanes[lane]];
  }

  /** The tests in flight are the running lanes. */
  lemma {:induction false} InFlightBounded(lanes: seq<Lane>)
    ensures Total(lanes, HeldWeight) <= |lanes|
    ensures Total(lanes, HeldWeight) == 0 <==> !AnyRunning(lanes)
  {
    if lanes != [] {
      InFlightBounded(lanes[1..]);
      assert AnyRunning(lanes) <==> lanes[0].Running? || AnyRunning(lanes[1..]) by {
        if AnyRunning(lanes[1..]) {
          var k :| 0 <= k < |lanes[1..]| && lanes[1..][k].Running?;
          assert lanes[k + 1].Running?;
        }
        if k :| 0 <= k < |lanes| && lanes[k].Running? && k > 0 {
          assert lanes[1..][k - 1].Running?;
        }
      }
    }
  }

  /**
   In every schedule: the invariant, never more tests in flight than lanes, and as many settlements so far as
   tests started and no longer in flight. Each test is started once, in order, so no schedule outlasts the tests.
   */
  lemma {:induction false} EveryScheduleKeeps<T>(
      n: nat, concurrency: int, schedule: seq<nat>, run: nat -> Option<T>)
    requires Legal(n, concurrency, schedule, run)
    ensures var s := After(n, concurrency, schedule, run);
            && Inv(s, run)
            && |s.results| == n && |s.lanes| == LaneCount(concurrency, n)
            && |schedule| + InFlight(s) == |s.started| <= n
            && InFlight(s) <= LaneCount(concurrency, n)
            && s.started == seq(|s.started|, i => i)
  {
    if schedule == [] {
      var s := Launch<T>(n, LaneCount(concurrency, n));
      Launched<T>(n, LaneCount(concurrency, n));
      LaunchInv(n, LaneCount(concurrency, n), run);
      AllInFlight(s.lanes);
    } else {
      var rest, lane := schedule[..|schedule| - 1], schedule[|schedule| - 1];
      EveryScheduleKeeps(n, concurrency, rest, run);
      var s := After(n, concurrency, rest, run);
      SettleKeepsInv(s, lane, run);
      SettleInFlight(s, lane, run(s.lanes[lane].index));
    }
    InFlightBounded(After(n, concurrency, schedule, run).lanes);
  }

  /**
   In every schedule there are as many lanes as the concurrency and the tests allow, and while a test is left to
   start no lane is idle: each is running one or was rejected.
   */
  lemma {:induction false} LanesStayBusy<T>(n: nat, concurrency: int, schedule: seq<nat>, run: nat -> Option<T>)
    requires Legal(n, concurrency, schedule, run)
    ensures var s := After(n, concurrency, schedule, run);
            && (concurrency <= 0 ==> s.lanes == [])
            && (0 <= concurrency <= n ==> |s.lanes| == concurrency)
            && (n <= concurrency ==> |s.lanes| == n)
            && (|s.started| < n ==> forall k | 0 <= k < |s.lanes| :: s.lanes[k].Running? || s.lanes[k].Rejected?)
  {
    EveryScheduleKeeps(n, concurrency, schedule, run);
  }

  /**
   What awaiting the lanes answers at any moment: failed as soon as one was rejected, otherwise pending while a
   test is in flight, and otherwise the results.
   */
  lemma {:induction false} ReplyAtAnyMoment<T>(n: nat, concurrency: int, schedule: seq<nat>, run: nat -> Option<T>)
    requires Legal(n, concurrency, schedule, run)
    ensures var s := After(n, concurrency, schedule, run);
            && (ReplyOf(s).Failed? <==> exists k :: 0 <= k < |s.lanes| && s.lanes[k].Rejected?)
            && (ReplyOf(s).Pending? <==>
                  InFlight(s) > 0 && forall k | 0 <= k < |s.lanes| :: !s.lanes[k].Rejected?)
            && (ReplyOf(s).Resolved? ==> ReplyOf(s).results == s.results && InFlight(s) == 0)
            && (forall k | 0 <= k < |s.lanes| && s.lanes[k].Rejected? :: run(s.lanes[k].index).None?)
  {
    EveryScheduleKeeps(n, concurrency, schedule, run);
    InFlightBounded(After(n, concurrency, schedule, run).lanes);
  }

  ghost predicate AllFilled<T>(results: seq<Option<T>>, run: nat -> Option<T>) {
    forall i | 0 <= i < |results| :: results[i].Some? && results[i] == run(i)
  }

  /**
   Once no test is in flight, the call has resolved exactly when no lane was rejected, and what it resolves to
   holds every test's own answer exactly when there was a lane to run it or nothing to run. A test is left
   unstarted only when every lane was rejected.
   */
  lemma {:induction false} PoolSettles<T>(n: nat, concurrency: int, schedule: seq<nat>, run: nat -> Option<T>)
    requires Legal(n, concurrency, schedule, run)
    requires !AnyRunning(After(n, concurrency, schedule, run).lanes)
    ensures var s := After(n, concurrency, schedule, run);
            && (ReplyOf(s).Failed? <==> AnyRejected(s.lanes))
            && (ReplyOf(s) == Resolved(s.results) <==> !AnyRejected(s.lanes))
            && (AllFilled(s.results, run) <==> !AnyRejected(s.lanes) && (concurrency >= 1 || n == 0))
            && (|s.started| < n ==> forall k | 0 <= k < |s.lanes| :: s.lanes[k].Rejected?)
            && |schedule| == |s.started|
  {
    var s := After(n, concurrency, schedule, run);
    EveryScheduleKeeps(n, concurrency, schedule, run);
    InFlightBounded(s.lanes);
    if !AnyRejected(s.lanes) && (concurrency >= 1 || n == 0) {
      forall i | 0 <= i < n
        ensures s.results[i].Some?
      {
        assert s.lanes[0].Idle?;
        assert Placed(s, i);
      }
    }
    if AllFilled(s.results, run) {
      assert !AnyRejected(s.lanes);
      if n > 0 {
        assert s.results[0].Some?;
      }
    }
  }

  /**
   Once no test is in flight, the call has resolved to every test's answer exactly when every test answers and
   there was a lane to run them or nothing to run.
   */
  lemma {:induction false} CompleteIff<T>(n: nat, concurrency: int, schedule: seq<nat>, run: nat -> Option<T>)
    requires Legal(n, concurrency, schedule, run)
    requires !AnyRunning(After(n, concurrency, schedule, run).lanes)
    ensures var reply := ReplyOf(After(n, concurrency, schedule, run));
            reply.Resolved? && |reply.results| == n && AllFilled(reply.results, run) <==>
              (forall i | 0 <= i < n :: run(i).Some?) && (concurrency >= 1 || n == 0)
  {
    EveryScheduleKeeps(n, concurrency, schedule, run);
    PoolSettles(n, concurrency, schedule, run);
  }

  /** With no lane the call resolves at once, to holes. */
  lemma {:induction false} NoLaneLeavesHoles<T>(run: nat -> Option<T>)
    ensures Legal(2, 0, [], run)
    ensures ReplyOf(After(2, 0, [], run)) == Resolved([None, None])
  {
    assert After(2, 0, [], run).results == [None, None];
  }
}
