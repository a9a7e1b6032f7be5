/**
 The service's fields and the code between its awaits. Each method is one atomic segment; its contract
 says which step of the protocol it takes. The sequences of calls stand for the suspended async frames.
 */
module AssistantServiceModel {
  import opened Prelude
  import opened MaintenanceProtocol

  const MAX_SAFE_INTEGER: nat := 9007199254740991

  class AssistantService {
    var drainBlockers: int
    var maintenanceChain: Option<nat>
    var activeDrain: Option<nat>
    var preemptionRequested: bool
    var maintenance: seq<MaintenanceOp>
    var residency: seq<ResidencyOp>
    var drains: seq<DrainPhase>
    ghost var workLog: seq<nat>

    ghost function View(): State
      reads this
    {
      State(drainBlockers, maintenanceChain, activeDrain, preemptionRequested,
            maintenance, residency, drains, workLog)
    }

    constructor ()
      ensures View() == INITIAL
    {
      drainBlockers, maintenanceChain, activeDrain, preemptionRequested := 0, None, None, false;
      maintenance, residency, drains, workLog := [], [], [], [];
    }

    /** `runMaintenance`, up to the await on its chained promise. */
    method RunMaintenance() returns (op: nat)
      modifies this
      ensures op == |old(maintenance)|
      ensures View() == Apply(old(View()), CallMaintenance)
    {
      op := |maintenance|;
      drainBlockers := drainBlockers + 1;
      maintenance := maintenance + [MaintenanceOp(maintenanceChain, Queued)];
      maintenanceChain := Some(op);
    }

    /** Asks the runner to stop claiming and reads which drain there is to wait for. */
    method PreemptAndCapture() returns (captured: Option<nat>)
      modifies this`preemptionRequested
      ensures preemptionRequested && captured == activeDrain
    {
      preemptionRequested := true;
      captured := activeDrain;
    }

    /** The `then` callback of a chained call. */
    method TakeTurn(op: nat)
      requires Enabled(View(), Event.TakeTurn(op))
      modifies this
      ensures View() == Apply(old(View()), Event.TakeTurn(op))
    {
      var captured := PreemptAndCapture();
      maintenance := maintenance[op := maintenance[op].(phase := Waiting(captured))];
    }

    method StartWork(op: nat)
      requires Enabled(View(), Event.StartWork(op))
      modifies this
      ensures View() == Apply(old(View()), Event.StartWork(op))
    {
      maintenance := maintenance[op := maintenance[op].(phase := Working)];
      workLog := workLog + [op];
    }

    method SettleWork(op: nat, failed: bool)
      requires Enabled(View(), Event.SettleWork(op, failed))
      modifies this
      ensures View() == Apply(old(View()), Event.SettleWork(op, failed))
    {
      maintenance := maintenance[op := maintenance[op].(phase := Settled(failed))];
    }

    /** The `finally` block of `runMaintenance`; the caller sees the work's own outcome. */
    method ReleaseMaintenance(op: nat) returns (failed: bool)
      requires Enabled(View(), Event.ReleaseMaintenance(op))
      modifies this
      ensures View() == Apply(old(View()), Event.ReleaseMaintenance(op))
      ensures failed == old(maintenance[op].phase.failed)
    {
      failed := maintenance[op].phase.failed;
      maintenance := maintenance[op := maintenance[op].(phase := Released(failed))];
      drainBlockers := drainBlockers - 1;
    }

    /** `onModelResidencyChanging`, up to its await. */
    method OnModelResidencyChanging() returns (op: nat)
      modifies this
      ensures op == |old(residency)|
      ensures View() == Apply(old(View()), CallResidency)
    {
      op := |residency|;
      drainBlockers := drainBlockers + 1;
      var captured := PreemptAndCapture();
      residency := residency + [Awaiting(captured, |drains|)];
    }

    method ReturnResidency(op: nat)
      requires Enabled(View(), Event.ReturnResidency(op))
      modifies this
      ensures View() == Apply(old(View()), Event.ReturnResidency(op))
    {
      residency := residency[op := Returned];
      drainBlockers := drainBlockers - 1;
    }

    /** `drainJobs`, up to the await on the drain it started, if it started one. */
    method DrainJobs(enabled: bool, setupFails: bool) returns (outcome: TickOutcome)
      modifies this
      ensures outcome == Tick(old(View()), enabled)
      ensures View() == Apply(old(View()), DrainTick(enabled, setupFails))
    {
      if drainBlockers > 0 {
        return Blocked(drainBlockers);
      }
      if !enabled {
        return Disabled;
      }
      if activeDrain.Some? {
        return AlreadyRunning;
      }
      var drain := |drains|;
      if setupFails {
        drains := drains + [Finished];
      } else {
        preemptionRequested := false;
        drains := drains + [Running];
      }
      activeDrain := Some(drain);
      return Started(drain);
    }

    method FinishDrain(drain: nat)
      requires Enabled(View(), Event.FinishDrain(drain))
      modifies this
      ensures View() == Apply(old(View()), Event.FinishDrain(drain))
    {
      drains := drains[drain := Finished];
    }

    /** The `finally` block of `drainJobs`. */
    method ClearDrain(drain: nat)
      requires Enabled(View(), Event.ClearDrain(drain))
      modifies this
      ensures View() == Apply(old(View()), Event.ClearDrain(drain))
    {
      drains := drains[drain := Cleared];
      if activeDrain == Some(drain) {
        activeDrain := None;
      }
    }

    method OnInteractiveRequest()
      modifies this
      ensures View() == Apply(old(View()), InteractiveRequest)
    {
      preemptionRequested := true;
    }
  }

  // ---------------------------------------------------------------------------------------------
  // The capture budget of one drain
  // ---------------------------------------------------------------------------------------------

  function Concat<T>(lists: seq<seq<T>>): seq<T> {
    if lists == [] then [] else lists[0] + Concat(lists[1..])
  }

  lemma {:induction false} ConcatSplit<T>(lists: seq<seq<T>>, k: nat)
    requires k < |lists|
    ensures Concat(lists) == Concat(lists[..k]) + lists[k] + Concat(lists[k + 1..])
    ensures Concat(lists[..k + 1]) == Concat(lists[..k]) + lists[k]
  {
    if k == 0 {
      assert lists[..1] == [lists[0]];
      assert Concat([lists[0]]) == lists[0] + Concat([]);
    } else {
      ConcatSplit(lists[1..], k - 1);
      assert lists[..k][1..] == lists[1..][..k - 1];
      assert lists[..k + 1][1..] == lists[1..][..k];
      assert lists[1..][k..] == lists[k + 1..];
    }
  }

  /**
   The waiting captures of every pending state share one drain budget: what gets queued is exactly the
   first `budget` captures, state by state and oldest first. Each list is ordered as the store lists it.
   */
  method EnqueueWaitingCaptures(usable: bool, maxJobsPerDrain: int, waiting: seq<seq<string>>)
    returns (enqueued: seq<string>)
    ensures !usable ==> enqueued == []
    ensures usable ==>
              var budget: nat := if maxJobsPerDrain < 0 then MAX_SAFE_INTEGER else maxJobsPerDrain;
              enqueued == Concat(waiting)[..Min(budget, |Concat(waiting)|)]
  {
    enqueued := [];
    if !usable {
      return;
    }
    var budget: nat := if maxJobsPerDrain < 0 then MAX_SAFE_INTEGER else maxJobsPerDrain;
    var remaining := budget;
    for state := 0 to |waiting|
      invariant enqueued == Concat(waiting[..state])[..Min(budget, |Concat(waiting[..state])|)]
      invariant remaining == budget - |enqueued|
    {
      ConcatSplit(waiting, state);
      if remaining <= 0 {
        return;
      }
      var rows := waiting[state][..Min(remaining, |waiting[state]|)];
      ghost var before := enqueued;
      for row := 0 to |rows|
        invariant enqueued == before + rows[..row]
        invariant remaining == budget - |enqueued|
      {
        enqueued := enqueued + [rows[row]];
        remaining := remaining - 1;
      }
    }
    assert waiting[..|waiting|] == waiting;
  }
}
