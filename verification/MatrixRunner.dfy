/** The matrix runner as it runs: its local variables and its loop with catch and finally. */
module MatrixRunnerModel {
  import opened Prelude
  import opened MatrixRun

  class MatrixRunner {
    var currentLaunchSignature: Option<string>
    var activeRunEntry: Option<nat>
    var status: Status
    var runs: seq<RunEntry>
    var events: seq<Event>
    var capturedError: Option<string>

    ghost function View(): Session
      reads this
    {
      Session(currentLaunchSignature, activeRunEntry, status, runs, events, capturedError)
    }

    constructor ()
      ensures View() == NEW_SESSION
    {
      currentLaunchSignature, activeRunEntry, status := None, None, Running;
      runs, events, capturedError := [], [], None;
    }

    /** What the signal handler does when the awaited operation is interrupted. */
    method HandleInterrupt(outcome: AwaitOutcome)
      modifies this
      ensures View() == OnInterrupt(old(View()), outcome)
    {
      if !outcome.Interrupted? {
        return;
      }
      if activeRunEntry.Some? && activeRunEntry.value < |runs| && runs[activeRunEntry.value].status.Running? {
        runs := runs[activeRunEntry.value := MarkFailed(runs[activeRunEntry.value], Message(outcome))];
      }
      status := Status.Failed;
    }

    method CatchRun(outcome: AwaitOutcome)
      requires runs != []
      modifies this
      ensures View() == FailRun(old(View()), outcome)
    {
      HandleInterrupt(outcome);
      runs := runs[|runs| - 1 := MarkFailed(runs[|runs| - 1], Message(outcome))];
      status := Status.Failed;
      activeRunEntry := None;
      capturedError := Some(Message(outcome));
    }

    /** One iteration of the loop. */
    method Visit(run: Target, t: RunScript, sig: Signer)
      requires capturedError.None?
      modifies this
      ensures View() == VisitRun(sig, old(View()), run, t)
    {
      var index := |runs|;
      activeRunEntry := Some(index);
      runs := runs + [RunEntry(run.id, Running, None, None)];
      var required := sig(run);
      if currentLaunchSignature != Some(required) {
        events := events + [Launch(run, t.restart.Completes?)];
        if !t.restart.Completes? {
          CatchRun(t.restart);
          return;
        }
        currentLaunchSignature := Some(required);
      }
      events := events + [Benchmark(index)];
      if !t.benchmark.Completes? {
        CatchRun(t.benchmark);
        return;
      }
      runs := runs[index := runs[index].(status := Completed, benchmarkRunUri := Some(t.benchmarkRunUri))];
      activeRunEntry := None;
    }

    method RunMatrix(baseline: Target, selected: seq<Target>, script: Script)
      returns (restore: RestoreStatus, thrown: Option<string>)
      requires View() == NEW_SESSION
      modifies this
      ensures Final(View(), restore, thrown) == Matrix(BuildLaunchSignature, baseline, selected, script)
    {
      RunBody(baseline, selected, script, BuildLaunchSignature);
      // the `finally` block: restore the baseline whatever happened
      restore := if script.restoreError.Some? then RestoreFailed else Restored;
      thrown := Thrown(capturedError, script.restoreError);
    }

    /** The `try` block with its `catch`. */
    method RunBody(baseline: Target, selected: seq<Target>, script: Script, sig: Signer)
      requires View() == NEW_SESSION
      modifies this
      ensures View() == RunAll(sig, baseline, selected, script)
    {
      events := events + [Launch(baseline, script.baseline.Completes?)];
      if !script.baseline.Completes? {
        HandleInterrupt(script.baseline);
        capturedError := Some(Message(script.baseline));
        status := Status.Failed;
        return;
      }
      currentLaunchSignature := Some(sig(baseline));
      assert View() == LaunchBaseline(sig, baseline, script);
      ghost var whole := VisitFrom(sig, View(), selected, 0, script);
      var k := 0;
      while k < |selected| && capturedError.None?
        invariant 0 <= k <= |selected|
        invariant VisitFrom(sig, View(), selected, k, script) == whole
      {
        Visit(selected[k], script.runs(k), sig);
        k := k + 1;
      }
      if capturedError.Some? {
        status := Status.Failed;
        return;
      }
      status := Completed;
    }
  }
}
