/** The pool as it runs: the shared counter and the results array the lanes fill in place. */
module LaneRunnerModel {
  import opened Prelude
  import opened LanePool

  class LaneRunner<T> {
    const results: array<Option<T>>
    var next: nat
    var lanes: seq<Lane>
    var started: seq<nat>

    ghost function View(): State<T>
      reads this, results
    {
      State(next, lanes, results[..], started)
    }

    /** The launching loop. */
    constructor (n: nat, concurrency: int)
      ensures fresh(results) && View() == Launch(n, LaneCount(concurrency, n))
    {
      results := new Option<T>[n](_ => None);
      next, lanes, started := 0, [], [];
      new;
      assert results[..] == seq(n, _ => None);
      for lane := 0 to LaneCount(concurrency, n)
        invariant |lanes| == lane && View() == Launch(n, lane)
      {
        lanes := lanes + [Idle];
        ClaimNext(lane);
      }
    }

    method ClaimNext(lane: nat)
      requires lane < |lanes|
      modifies this
      ensures View() == Claim(old(View()), lane)
    {
      var current := next;
      next := next + 1;
      if current >= results.Length {
        return;
      }
      started := started + [current];
      lanes := lanes[lane := Running(current)];
    }

    /** The awaited run of a lane settles: its answer is stored and the lane claims again, or the lane ends. */
    method OnSettled(lane: nat, outcome: Option<T>)
      requires CanSettle(View(), lane)
      modifies this, results
      ensures View() == Settle(old(View()), lane, outcome)
    {
      var current := lanes[lane].index;
      if outcome.None? {
        lanes := lanes[lane := Rejected(current)];
        return;
      }
      results[current] := outcome;
      lanes := lanes[lane := Idle];
      ClaimNext(lane);
    }

    method AwaitAll() returns (reply: Reply<T>)
      ensures reply == ReplyOf(View())
    {
      var running := false;
      for k := 0 to |lanes|
        invariant !AnyRejected(lanes[..k])
        invariant running <==> AnyRunning(lanes[..k])
      {
        assert lanes[..k + 1] == lanes[..k] + [lanes[k]];
        if lanes[k].Rejected? {
          return Failed;
        }
        running := running || lanes[k].Running?;
        assert lanes[..k + 1][k] == lanes[k];
      }
      assert lanes[..|lanes|] == lanes;
      return if running then Pending else Resolved(results[..]);
    }
  }
}
