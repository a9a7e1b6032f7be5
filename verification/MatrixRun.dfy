/**
 One benchmark matrix: launch the baseline engine, run the selected targets one after another on an engine
 that fits, and restore the baseline. Each await completes, fails, or is cut short by an interrupt.
 */
module MatrixRun {
  import opened Prelude

  datatype Reasoning = On | Off | Auto

  datatype Target = Target(
    id: string, startScript: string, resolvedModelPath: string,
    contextSize: nat, maxTokens: nat, reasoning: Reasoning, passReasoningArg: bool)

  datatype AwaitOutcome = Completes | Fails(message: string) | Interrupted(signal: string)

  datatype RunScript = RunScript(restart: AwaitOutcome, benchmark: AwaitOutcome, benchmarkRunUri: string)

  /** What every await of one matrix run does; an interrupt is no longer listened to during the restore. */
  datatype Script = Script(baseline: AwaitOutcome, runs: nat -> RunScript, restoreError: Option<string>)

  datatype Status = Running | Completed | Failed

  datatype RunEntry = RunEntry(runId: string, status: Status, error: Option<string>, benchmarkRunUri: Option<string>)

  /** What was asked of the engine and the benchmark, in order. */
  datatype Event = Launch(target: Target, succeeded: bool) | Benchmark(run: nat)

  datatype Session = Session(
    currentLaunchSignature: Option<string>, activeRunEntry: Option<nat>, status: Status,
    runs: seq<RunEntry>, events: seq<Event>, capturedError: Option<string>)

  datatype RestoreStatus = Restored | RestoreFailed

  datatype Final = Final(session: Session, restore: RestoreStatus, thrown: Option<string>)

  // ---------------------------------------------------------------------------------------------
  // The launch signature
  // ---------------------------------------------------------------------------------------------

  function ReasoningName(r: Reasoning): string {
    match r
    case On => "on"
    case Off => "off"
    case Auto => "auto"
  }

  function ReasoningPart(t: Target): string {
    if t.passReasoningArg then ReasoningName(t.reasoning) else "script-controlled"
  }

  function BuildLaunchSignature(t: Target): string {
    t.startScript + ['|'] + (t.resolvedModelPath + ['|'] +
    (Decimal(t.contextSize) + ['|'] + (Decimal(t.maxTokens) + ['|'] + ReasoningPart(t))))
  }

  /**
   What tells two launches of one matrix apart. The launcher is passed the model path as written, which the
   start script's directory turns into `resolvedModelPath`.
   */
  datatype LaunchKey = LaunchKey(
    startScript: string, modelPath: string, contextSize: nat, maxTokens: nat, reasoning: Option<Reasoning>)

  function KeyOf(t: Target): LaunchKey {
    LaunchKey(t.startScript, t.resolvedModelPath, t.contextSize, t.maxTokens,
              if t.passReasoningArg then Some(t.reasoning) else None)
  }

  /** The first two parts, the only ones that may hold the separator. */
  function Paths(t: Target): string {
    t.startScript + ['|'] + t.resolvedModelPath
  }

  /** Two signatures agree exactly when the joined paths, the sizes and the reasoning argument agree. */
  lemma {:induction false} SignatureEqualIff(a: Target, b: Target)
    ensures BuildLaunchSignature(a) == BuildLaunchSignature(b) <==>
            && Paths(a) == Paths(b)
            && a.contextSize == b.contextSize
            && a.maxTokens == b.maxTokens
            && KeyOf(a).reasoning == KeyOf(b).reasoning
  {
    SignatureParts(a);
    SignatureParts(b);
    if BuildLaunchSignature(a) == BuildLaunchSignature(b) {
      SplitAtLast(WithSizes(a), ReasoningPart(a), WithSizes(b), ReasoningPart(b), '|');
      SplitAtLast(WithContext(a), Decimal(a.maxTokens), WithContext(b), Decimal(b.maxTokens), '|');
      SplitAtLast(Paths(a), Decimal(a.contextSize), Paths(b), Decimal(b.contextSize), '|');
      DecimalInjective(a.contextSize, b.contextSize);
      DecimalInjective(a.maxTokens, b.maxTokens);
      ReasoningPartIdentifies(a, b);
    }
  }

  /** The five parts of a signature, in order; the reasoning is left to the script unless it is passed. */
  lemma {:induction false} SignatureReads(t: Target)
    ensures var reasoning := if !t.passReasoningArg then "script-controlled"
                             else if t.reasoning.On? then "on" else if t.reasoning.Off? then "off" else "auto";
            BuildLaunchSignature(t) == t.startScript + "|" + t.resolvedModelPath + "|" + Decimal(t.contextSize)
                                       + "|" + Decimal(t.maxTokens) + "|" + reasoning
  {
    SignatureParts(t);
  }

  function WithContext(t: Target): string {
    Paths(t) + ['|'] + Decimal(t.contextSize)
  }

  function WithSizes(t: Target): string {
    WithContext(t) + ['|'] + Decimal(t.maxTokens)
  }

  lemma {:induction false} SignatureParts(t: Target)
    ensures BuildLaunchSignature(t) == WithSizes(t) + ['|'] + ReasoningPart(t)
    ensures '|' !in ReasoningPart(t)
  {
  }

  lemma {:induction false} ReasoningPartIdentifies(a: Target, b: Target)
    requires ReasoningPart(a) == ReasoningPart(b)
    ensures KeyOf(a).reasoning == KeyOf(b).reasoning
  {
    assert |ReasoningName(On)| == 2 && |ReasoningName(Off)| == 3 && |ReasoningName(Auto)| == 4;
    assert |"script-controlled"| == 17;
  }

  /** A path that continues another past a separator, on both sides. */
  ghost predicate Confusable(
    scripts: iset<string>, models: iset<string>, script: string, between: string, model: string)
  {
    && script in scripts && script + ['|'] + between in scripts
    && model in models && between + ['|'] + model in models
  }

  ghost predicate From(t: Target, scripts: iset<string>, models: iset<string>) {
    t.startScript in scripts && t.resolvedModelPath in models
  }

  lemma {:induction false} LongerScript(a: Target, b: Target) returns (between: string)
    requires Paths(a) == Paths(b) && |a.startScript| < |b.startScript|
    ensures b.startScript == a.startScript + ['|'] + between
    ensures a.resolvedModelPath == between + ['|'] + b.resolvedModelPath
  {
    var n := |a.startScript|;
    between := b.startScript[n + 1..];
    assert b.startScript == Paths(b)[..|b.startScript|];
    assert a.startScript == Paths(a)[..n] && Paths(a)[n] == '|';
    assert a.resolvedModelPath == Paths(a)[n + 1..] == between + ['|'] + b.resolvedModelPath;
  }

  lemma {:induction false} SamePathsSameLaunch(a: Target, b: Target)
    requires BuildLaunchSignature(a) == BuildLaunchSignature(b) && |a.startScript| == |b.startScript|
    ensures KeyOf(a) == KeyOf(b)
  {
    SignatureEqualIff(a, b);
    var n := |a.startScript|;
    assert a.startScript == Paths(a)[..n] && a.resolvedModelPath == Paths(a)[n + 1..];
    assert b.startScript == Paths(b)[..n] && b.resolvedModelPath == Paths(b)[n + 1..];
  }

  lemma {:induction false} ConfusedLaunches(script: string, between: string, model: string)
    ensures var a := Target("a", script, between + ['|'] + model, 1, 1, Off, true);
            var b := Target("b", script + ['|'] + between, model, 1, 1, Off, true);
            BuildLaunchSignature(a) == BuildLaunchSignature(b) && KeyOf(a) != KeyOf(b)
  {
    var a := Target("a", script, between + ['|'] + model, 1, 1, Off, true);
    var b := Target("b", script + ['|'] + between, model, 1, 1, Off, true);
    assert Paths(a) == Paths(b);
    SignatureEqualIff(a, b);
    assert |a.startScript| != |b.startScript|;
  }

  /**
   Over sets of script and model paths, equal signatures mean equal launches exactly when no script path
   continues another past a separator where a model path begins with the same continuation.
   */
  lemma {:induction false} SignatureIdentifiesLaunchIff(scripts: iset<string>, models: iset<string>)
    ensures (forall a, b | From(a, scripts, models) && From(b, scripts, models) ::
               BuildLaunchSignature(a) == BuildLaunchSignature(b) ==> KeyOf(a) == KeyOf(b))
       <==> (forall script, between, model :: !Confusable(scripts, models, script, between, model))
  {
    if script, between, model :| Confusable(scripts, models, script, between, model) {
      ConfusedLaunches(script, between, model);
      var a := Target("a", script, between + ['|'] + model, 1, 1, Off, true);
      var b := Target("b", script + ['|'] + between, model, 1, 1, Off, true);
      assert From(a, scripts, models) && From(b, scripts, models);
    } else {
      forall a, b | From(a, scripts, models) && From(b, scripts, models) &&
                    BuildLaunchSignature(a) == BuildLaunchSignature(b)
        ensures KeyOf(a) == KeyOf(b)
      {
        SignatureEqualIff(a, b);
        if |a.startScript| < |b.startScript| {
          var between := LongerScript(a, b);
          assert Confusable(scripts, models, a.startScript, between, b.resolvedModelPath);
        } else if |b.startScript| < |a.startScript| {
          var between := LongerScript(b, a);
          assert Confusable(scripts, models, b.startScript, between, a.resolvedModelPath);
        } else {
          SamePathsSameLaunch(a, b);
        }
      }
    }
  }

  // ---------------------------------------------------------------------------------------------
  // The specification
  // ---------------------------------------------------------------------------------------------

  /** How a target's launch is summarised; the source uses BuildLaunchSignature. */
  type Signer = Target -> string

  function Message(outcome: AwaitOutcome): string {
    match outcome
    case Completes => ""
    case Fails(message) => message
    case Interrupted(signal) => "Benchmark matrix interrupted by " + signal + "."
  }

  function MarkFailed(entry: RunEntry, message: string): RunEntry {
    entry.(status := Failed, error := Some(message))
  }

  /** The signal handler: the active entry and the session are failed at once. */
  function OnInterrupt(s: Session, outcome: AwaitOutcome): Session {
    if !outcome.Interrupted? then s
    else
      var failed := s.(status := Failed);
      var active := s.activeRunEntry;
      if active.Some? && active.value < |s.runs| && s.runs[active.value].status.Running?
      then failed.(runs := s.runs[active.value := MarkFailed(s.runs[active.value], Message(outcome))])
      else failed
  }

  /** The catch block of one run, after the handler when the await was interrupted. */
  function FailRun(s: Session, outcome: AwaitOutcome): Session
    requires s.runs != []
  {
    var seen := OnInterrupt(s, outcome);
    var last := |seen.runs| - 1;
    seen.(runs := seen.runs[last := MarkFailed(seen.runs[last], Message(outcome))],
    status := Failed, activeRunEntry := None, capturedError := Some(Message(outcome)))
  }

  function StartRun(s: Session, run: Target): Session {
    s.(runs := s.runs + [RunEntry(run.id, Running, None, None)], activeRunEntry := Some(|s.runs|))
  }

  function CompleteRun(s: Session, uri: string): Session
    requires s.runs != []
  {
    var last := |s.runs| - 1;
    s.(runs := s.runs[last := s.runs[last].(status := Completed, benchmarkRunUri := Some(uri))], activeRunEntry := None)
  }

  /** The engine is restarted only when the launch signature changes. */
  function Relaunch(sig: Signer, s: Session, run: Target, t: RunScript): Session
    requires s.runs != []
  {
    var required := sig(run);
    if s.currentLaunchSignature == Some(required) then s
    else
      var attempted := s.(events := s.events + [Launch(run, t.restart.Completes?)]);
      if t.restart.Completes? then attempted.(currentLaunchSignature := Some(required))
      else FailRun(attempted, t.restart)
  }

  function VisitRun(sig: Signer, s: Session, run: Target, t: RunScript): (after: Session)
    requires s.capturedError.None?
    ensures |after.runs| == |s.runs| + 1
  {
    var ready := Relaunch(sig, StartRun(s, run), run, t);
    if ready.capturedError.Some? then ready
    else
      var benchmarked := ready.(events := ready.events + [Benchmark(|s.runs|)]);
      if t.benchmark.Completes? then CompleteRun(benchmarked, t.benchmarkRunUri) else FailRun(benchmarked, t.benchmark)
  }

  /** The selected runs from `k` on, stopping at the first that fails. */
  function VisitFrom(sig: Signer, s: Session, selected: seq<Target>, k: nat, script: Script): Session
    requires k <= |selected|
    decreases |selected| - k
  {
    if s.capturedError.Some? || k == |selected| then s
    else VisitFrom(sig, VisitRun(sig, s, selected[k], script.runs(k)), selected, k + 1, script)
  }

  const NEW_SESSION := Session(None, None, Running, [], [], None)

  function LaunchBaseline(sig: Signer, baseline: Target, script: Script): Session {
    var attempted := NEW_SESSION.(events := [Launch(baseline, script.baseline.Completes?)]);
    if script.baseline.Completes? then attempted.(currentLaunchSignature := Some(sig(baseline)))
    else OnInterrupt(attempted, script.baseline).(status := Failed, capturedError := Some(Message(script.baseline)))
  }

  function RunAll(sig: Signer, baseline: Target, selected: seq<Target>, script: Script): Session {
    var launched := LaunchBaseline(sig, baseline, script);
    if launched.capturedError.Some? then launched
    else
      var visited := VisitFrom(sig, launched, selected, 0, script);
      if visited.capturedError.Some? then visited.(status := Failed) else visited.(status := Completed)
  }

  function Thrown(captured: Option<string>, restore: Option<string>): Option<string> {
    if captured.Some? && restore.Some? then
      Some("Benchmark matrix failed: " + captured.value + " Baseline restore also failed: " + restore.value)
    else if captured.Some? then captured
    else restore
  }

  function Matrix(sig: Signer, baseline: Target, selected: seq<Target>, script: Script): Final {
    var session := RunAll(sig, baseline, selected, script);
    Final(session, if script.restoreError.Some? then RestoreFailed else Restored,
          Thrown(session.capturedError, script.restoreError))
  }

  // ---------------------------------------------------------------------------------------------
  // What every matrix run keeps
  // ---------------------------------------------------------------------------------------------

  /** The target whose launch the engine was last brought up for before run `k`. */
  function PreviousTarget(baseline: Target, selected: seq<Target>, k: nat): Target
    requires k <= |selected|
  {
    if k == 0 then baseline else selected[k - 1]
  }

  /** How often the signature changes along the first `k` runs, counting from the baseline. */
  function SignatureChanges(sig: Signer, baseline: Target, selected: seq<Target>, k: nat): nat
    requires k <= |selected|
  {
    if k == 0 then 0
    else SignatureChanges(sig, baseline, selected, k - 1) +
         if sig(selected[k - 1]) == sig(PreviousTarget(baseline, selected, k - 1))
         then 0 else 1
  }

  function LaunchCount(e: Event): nat {
    if e.Launch? then 1 else 0
  }

  /** The target of the last launch that succeeded. */
  function LastLaunch(events: seq<Event>): (launched: Option<Target>)
    ensures launched.Some? ==> Launch(launched.value, true) in events
  {
    if events == [] then None
    else
      var last := events[|events| - 1];
      if last.Launch? && last.succeeded then Some(last.target) else LastLaunch(events[..|events| - 1])
  }

  /** The signature the engine was last brought up with. */
  function LastSignature(sig: Signer, events: seq<Event>): Option<string> {
    var launched := LastLaunch(events);
    if launched.None? then None else Some(sig(launched.value))
  }

  /**
   Every benchmark ran on an engine last launched, successfully, with its run's signature, and nothing but the
   matrix's own targets was ever launched.
   */
  ghost predicate BenchmarksFit(sig: Signer, events: seq<Event>, baseline: Target, selected: seq<Target>) {
    && (forall p | 0 <= p < |events| && events[p].Benchmark? ::
          && events[p].run < |selected|
          && LastSignature(sig, events[..p]) == Some(sig(selected[events[p].run])))
    && (forall e | e in events && e.Launch? :: e.target == baseline || e.target in selected)
  }

  ghost predicate RunsArePrefix(runs: seq<RunEntry>, selected: seq<Target>) {
    |runs| <= |selected| && forall i | 0 <= i < |runs| :: runs[i].runId == selected[i].id
  }

  /** All entries but possibly the last are completed; the last is failed exactly when the run was cut short. */
  ghost predicate Settled(runs: seq<RunEntry>, cutShort: bool) {
    && (forall i | 0 <= i < |runs| - 1 :: runs[i].status.Completed? && runs[i].error.None?)
    && (runs != [] ==> runs[|runs| - 1].status == if cutShort then Failed else Completed)
  }

  ghost predicate Visited(sig: Signer, s: Session, baseline: Target, selected: seq<Target>, k: nat)
    requires k <= |selected|
  {
    && RunsArePrefix(s.runs, selected)
    && Settled(s.runs, s.capturedError.Some?)
    && BenchmarksFit(sig, s.events, baseline, selected)
    && Total(s.events, LaunchCount) == 1 + SignatureChanges(sig, baseline, selected, |s.runs|)
    && s.activeRunEntry.None?
    && (if s.capturedError.None? then
          && |s.runs| == k && s.status.Running?
          && (forall i | 0 <= i < |s.runs| :: s.runs[i].error.None?)
          && s.currentLaunchSignature == LastSignature(sig, s.events)
               == Some(sig(PreviousTarget(baseline, selected, k)))
        else 0 < |s.runs| <= k && s.status.Failed?)
  }

  lemma {:induction false} EventAppended(
    sig: Signer, events: seq<Event>, e: Event, baseline: Target, selected: seq<Target>)
    requires BenchmarksFit(sig, events, baseline, selected)
    requires e.Benchmark? ==>
               e.run < |selected| && LastSignature(sig, events) == Some(sig(selected[e.run]))
    requires e.Launch? ==> e.target == baseline || e.target in selected
    ensures BenchmarksFit(sig, events + [e], baseline, selected)
    ensures LastLaunch(events + [e]) == if e.Launch? && e.succeeded then Some(e.target) else LastLaunch(events)
    ensures Total(events + [e], LaunchCount) == Total(events, LaunchCount) + LaunchCount(e)
  {
    var all := events + [e];
    assert all[..|events|] == events;
    forall p | 0 <= p < |all| && all[p].Benchmark?
      ensures all[p].run < |selected| && LastSignature(sig, all[..p]) == Some(sig(selected[all[p].run]))
    {
      if p < |events| {
        assert all[..p] == events[..p];
      }
    }
    TotalAppend(events, [e], LaunchCount);
    assert Total([e], LaunchCount) == LaunchCount(e);
  }

  /** A run that has been started and whose engine, unless the restart failed, fits. */
  ghost predicate Ready(sig: Signer, s: Session, baseline: Target, selected: seq<Target>, k: nat)
    requires k < |selected|
  {
    && |s.runs| == k + 1
    && RunsArePrefix(s.runs, selected)
    && (forall i | 0 <= i < k :: s.runs[i].status.Completed? && s.runs[i].error.None?)
    && BenchmarksFit(sig, s.events, baseline, selected)
    && Total(s.events, LaunchCount) == 1 + SignatureChanges(sig, baseline, selected, k + 1)
    && (if s.capturedError.None? then
          && s.status.Running? && s.runs[k].status.Running? && s.runs[k].error.None?
          && s.currentLaunchSignature == LastSignature(sig, s.events) == Some(sig(selected[k]))
        else s.status.Failed? && s.runs[k].status.Failed? && s.activeRunEntry.None?)
  }

  /**
   The signal handler, before any catch block: an interrupt at once fails the session and the active entry, if one
   is running, with the interrupt's message; any other outcome leaves everything to the catch block.
   */
  lemma {:induction false} InterruptSeenAtOnce(s: Session, outcome: AwaitOutcome)
    ensures !outcome.Interrupted? ==> OnInterrupt(s, outcome) == s
    ensures outcome.Interrupted? ==>
              var t := OnInterrupt(s, outcome);
              && t.status.Failed? && t == s.(status := Failed, runs := t.runs) && |t.runs| == |s.runs|
              && forall i | 0 <= i < |s.runs| ::
                   if s.activeRunEntry == Some(i) && s.runs[i].status.Running? then
                     && t.runs[i].status.Failed?
                     && t.runs[i].error == Some("Benchmark matrix interrupted by " + outcome.signal + ".")
                     && t.runs[i].runId == s.runs[i].runId && t.runs[i].benchmarkRunUri == s.runs[i].benchmarkRunUri
                   else t.runs[i] == s.runs[i]
    ensures outcome.Fails? ==> Message(outcome) == outcome.message
  {
  }

  /** An interrupt, handled first by the signal handler, leaves the record a plain failure leaves. */
  lemma {:induction false} InterruptLeavesPlainFailure(s: Session, outcome: AwaitOutcome)
    requires s.runs != [] && s.activeRunEntry == Some(|s.runs| - 1) && s.runs[|s.runs| - 1].status.Running?
    ensures var last := |s.runs| - 1;
            FailRun(s, outcome) ==
              s.(runs := s.runs[last := MarkFailed(s.runs[last], Message(outcome))],
              status := Failed, activeRunEntry := None, capturedError := Some(Message(outcome)))
  {
  }

  /** A launch attempt is made exactly for a change of signature, and counted. */
  lemma {:induction false} LaunchCounted(
    sig: Signer, s: Session, baseline: Target, selected: seq<Target>, k: nat, succeeded: bool)
    requires k < |selected| && Visited(sig, s, baseline, selected, k) && s.capturedError.None?
    requires s.currentLaunchSignature != Some(sig(selected[k]))
    ensures var events := s.events + [Launch(selected[k], succeeded)];
            && BenchmarksFit(sig, events, baseline, selected)
            && Total(events, LaunchCount) == 1 + SignatureChanges(sig, baseline, selected, k + 1)
            && (succeeded ==> LastSignature(sig, events) == Some(sig(selected[k])))
  {
    EventAppended(sig, s.events, Launch(selected[k], succeeded), baseline, selected);
  }

  /** A run that was started, with everything before it completed. */
  ghost predicate Attempting(s: Session, selected: seq<Target>, k: nat)
    requires k < |selected|
  {
    && |s.runs| == k + 1
    && RunsArePrefix(s.runs, selected)
    && (forall i | 0 <= i < k :: s.runs[i].status.Completed? && s.runs[i].error.None?)
    && s.runs[k] == RunEntry(selected[k].id, Running, None, None)
    && s.activeRunEntry == Some(k) && s.status.Running? && s.capturedError.None?
  }

  lemma {:induction false} StartRunAttempts(sig: Signer, s: Session, baseline: Target, selected: seq<Target>, k: nat)
    requires k < |selected| && Visited(sig, s, baseline, selected, k) && s.capturedError.None?
    ensures Attempting(StartRun(s, selected[k]), selected, k)
  {
  }

  lemma {:induction false} FailedAttemptReady(
    sig: Signer, attempted: Session, baseline: Target, selected: seq<Target>, k: nat, outcome: AwaitOutcome)
    requires k < |selected| && Attempting(attempted, selected, k)
    requires BenchmarksFit(sig, attempted.events, baseline, selected)
    requires Total(attempted.events, LaunchCount) == 1 + SignatureChanges(sig, baseline, selected, k + 1)
    ensures Ready(sig, FailRun(attempted, outcome), baseline, selected, k)
  {
    InterruptLeavesPlainFailure(attempted, outcome);
  }

  lemma {:induction false} RelaunchReady(
    sig: Signer, s: Session, baseline: Target, selected: seq<Target>, k: nat, t: RunScript)
    requires k < |selected| && Visited(sig, s, baseline, selected, k) && s.capturedError.None?
    ensures Ready(sig, Relaunch(sig, StartRun(s, selected[k]), selected[k], t), baseline, selected, k)
  {
    var started := StartRun(s, selected[k]);
    StartRunAttempts(sig, s, baseline, selected, k);
    if s.currentLaunchSignature != Some(sig(selected[k])) {
      LaunchCounted(sig, s, baseline, selected, k, t.restart.Completes?);
      if !t.restart.Completes? {
        var attempted := started.(events := s.events + [Launch(selected[k], false)]);
        FailedAttemptReady(sig, attempted, baseline, selected, k, t.restart);
        assert Relaunch(sig, started, selected[k], t) == FailRun(attempted, t.restart);
      }
    }
  }

  /** Benchmarking a run whose engine fits keeps everything it was ready with. */
  lemma {:induction false} BenchmarkedReady(
    sig: Signer, ready: Session, baseline: Target, selected: seq<Target>, k: nat)
    requires k < |selected| && Ready(sig, ready, baseline, selected, k) && ready.capturedError.None?
    ensures Ready(sig, ready.(events := ready.events + [Benchmark(k)]), baseline, selected, k)
  {
    EventAppended(sig, ready.events, Benchmark(k), baseline, selected);
  }

  lemma {:induction false} CompletedKeeps(
    sig: Signer, benchmarked: Session, baseline: Target, selected: seq<Target>, k: nat, uri: string)
    requires k < |selected| && Ready(sig, benchmarked, baseline, selected, k) && benchmarked.capturedError.None?
    ensures Visited(sig, CompleteRun(benchmarked, uri), baseline, selected, k + 1)
  {
  }

  lemma {:induction false} FailedKeeps(
    sig: Signer, benchmarked: Session, baseline: Target, selected: seq<Target>, k: nat, outcome: AwaitOutcome)
    requires k < |selected| && Ready(sig, benchmarked, baseline, selected, k) && benchmarked.capturedError.None?
    requires benchmarked.activeRunEntry == Some(k)
    ensures Visited(sig, FailRun(benchmarked, outcome), baseline, selected, k + 1)
  {
    InterruptLeavesPlainFailure(benchmarked, outcome);
  }

  lemma {:induction false} VisitRunKeeps(
    sig: Signer, s: Session, baseline: Target, selected: seq<Target>, k: nat, t: RunScript)
    requires k < |selected| && Visited(sig, s, baseline, selected, k) && s.capturedError.None?
    ensures Visited(sig, VisitRun(sig, s, selected[k], t), baseline, selected, k + 1)
  {
    RelaunchReady(sig, s, baseline, selected, k, t);
    var ready := Relaunch(sig, StartRun(s, selected[k]), selected[k], t);
    if ready.capturedError.None? {
      var benchmarked := ready.(events := ready.events + [Benchmark(k)]);
      BenchmarkedReady(sig, ready, baseline, selected, k);
      if t.benchmark.Completes? {
        CompletedKeeps(sig, benchmarked, baseline, selected, k, t.benchmarkRunUri);
      } else {
        FailedKeeps(sig, benchmarked, baseline, selected, k, t.benchmark);
      }
    }
  }

  /** How far the visits got: to the end, or just past the run that failed. */
  ghost predicate Stopped(sig: Signer, s: Session, baseline: Target, selected: seq<Target>) {
    exists k: nat | k <= |selected| ::
      Visited(sig, s, baseline, selected, k) && (k == |selected| || s.capturedError.Some?)
  }

  lemma {:induction false} VisitFromKeeps(
    sig: Signer, s: Session, baseline: Target, selected: seq<Target>, k: nat, script: Script)
    requires k <= |selected| && Visited(sig, s, baseline, selected, k)
    ensures Stopped(sig, VisitFrom(sig, s, selected, k, script), baseline, selected)
    decreases |selected| - k
  {
    if s.capturedError.Some? || k == |selected| {
      StoppedHere(sig, s, baseline, selected, k);
    } else {
      var next := NextVisit(sig, s, baseline, selected, k, script);
      VisitFromKeeps(sig, next, baseline, selected, k + 1, script);
    }
  }

  lemma {:induction false} StoppedHere(sig: Signer, s: Session, baseline: Target, selected: seq<Target>, k: nat)
    requires k <= |selected| && Visited(sig, s, baseline, selected, k)
    requires k == |selected| || s.capturedError.Some?
    ensures Stopped(sig, s, baseline, selected)
  {
  }

  lemma {:induction false} NextVisit(
    sig: Signer, s: Session, baseline: Target, selected: seq<Target>, k: nat, script: Script) returns (next: Session)
    requires k < |selected| && Visited(sig, s, baseline, selected, k) && s.capturedError.None?
    ensures Visited(sig, next, baseline, selected, k + 1)
    ensures VisitFrom(sig, s, selected, k, script) == VisitFrom(sig, next, selected, k + 1, script)
  {
    next := VisitRun(sig, s, selected[k], script.runs(k));
    VisitRunKeeps(sig, s, baseline, selected, k, script.runs(k));
  }

  ghost predicate AllCompleted(runs: seq<RunEntry>, selected: seq<Target>) {
    |runs| == |selected| && forall i | 0 <= i < |runs| :: runs[i].status.Completed?
  }

  /**
   Under any mix of success, failure and interrupt: the recorded runs are a prefix of the selected ones,
   all completed except possibly a failed last one; the session is completed exactly when all selected runs
   are, and failed otherwise; every benchmark ran on an engine last launched with its signature; the restarts
   attempted after the baseline's are the signature changes along the visited prefix; and the call throws
   exactly when the session failed or the baseline could not be restored.
   */
  lemma {:induction false} EveryMatrixRun(sig: Signer, baseline: Target, selected: seq<Target>, script: Script)
    requires selected != []
    ensures var f := Matrix(sig, baseline, selected, script);
            var s := f.session;
            && RunsArePrefix(s.runs, selected)
            && Settled(s.runs, s.capturedError.Some?)
            && (s.status.Completed? <==> AllCompleted(s.runs, selected))
            && !s.status.Running?
            && BenchmarksFit(sig, s.events, baseline, selected)
            && Total(s.events, LaunchCount) == 1 + SignatureChanges(sig, baseline, selected, |s.runs|)
            && (f.thrown.Some? <==> s.status.Failed? || f.restore.RestoreFailed?)
  {
    BaselineLaunched(sig, baseline, selected, script);
    var launched := LaunchBaseline(sig, baseline, script);
    if launched.capturedError.None? {
      VisitFromKeeps(sig, launched, baseline, selected, 0, script);
      StoppedFacts(sig, VisitFrom(sig, launched, selected, 0, script), baseline, selected);
    }
  }

  /** Where the visits stopped, before the session's status is settled. */
  lemma {:induction false} StoppedFacts(sig: Signer, s: Session, baseline: Target, selected: seq<Target>)
    requires selected != [] && Stopped(sig, s, baseline, selected)
    ensures RunsArePrefix(s.runs, selected)
    ensures Settled(s.runs, s.capturedError.Some?)
    ensures s.capturedError.None? <==> AllCompleted(s.runs, selected)
    ensures BenchmarksFit(sig, s.events, baseline, selected)
    ensures Total(s.events, LaunchCount) == 1 + SignatureChanges(sig, baseline, selected, |s.runs|)
  {
    var k: nat :| k <= |selected| && Visited(sig, s, baseline, selected, k) && (k == |selected| || s.capturedError.Some?);
    if s.capturedError.Some? {
      assert s.runs[|s.runs| - 1].status.Failed?;
    } else {
      assert s.runs[|s.runs| - 1].status.Completed?;
    }
  }

  lemma {:induction false} BaselineLaunched(sig: Signer, baseline: Target, selected: seq<Target>, script: Script)
    ensures var launched := LaunchBaseline(sig, baseline, script);
            && launched.runs == []
            && BenchmarksFit(sig, launched.events, baseline, selected)
            && Total(launched.events, LaunchCount) == 1
            && (launched.capturedError.None? ==> Visited(sig, launched, baseline, selected, 0))
            && (launched.capturedError.Some? ==> launched.status.Failed?)
  {
    var launch := Launch(baseline, script.baseline.Completes?);
    EventAppended(sig, [], launch, baseline, selected);
    assert [] + [launch] == [launch];
  }

  // ---------------------------------------------------------------------------------------------
  // What the awaits decide
  // ---------------------------------------------------------------------------------------------

  /** Run `k` needs its engine relaunched. */
  predicate Relaunches(sig: Signer, baseline: Target, selected: seq<Target>, k: nat)
    requires k < |selected|
  {
    sig(selected[k]) != sig(if k == 0 then baseline else selected[k - 1])
  }

  /** How run `k` goes once it is reached: its relaunch, if it needs one, and then its benchmark. */
  function RunOutcome(sig: Signer, baseline: Target, selected: seq<Target>, script: Script, k: nat): AwaitOutcome
    requires k < |selected|
  {
    if Relaunches(sig, baseline, selected, k) && !script.runs(k).restart.Completes? then script.runs(k).restart
    else script.runs(k).benchmark
  }

  predicate Passes(sig: Signer, baseline: Target, selected: seq<Target>, script: Script, k: nat)
    requires k < |selected|
  {
    RunOutcome(sig, baseline, selected, script, k).Completes?
  }

  /** The record of run `k` when the session is over. */
  predicate IsEntryOf(
    entry: RunEntry, sig: Signer, baseline: Target, selected: seq<Target>, script: Script, k: nat)
    requires k < |selected|
  {
    && entry.runId == selected[k].id
    && (entry.status.Completed? <==> Passes(sig, baseline, selected, script, k))
    && (entry.status.Completed? ==>
          entry.error.None? && entry.benchmarkRunUri == Some(script.runs(k).benchmarkRunUri))
    && (!entry.status.Completed? ==>
          && entry.status.Failed? && entry.benchmarkRunUri.None?
          && entry.error == Some(Message(RunOutcome(sig, baseline, selected, script, k))))
  }

  /** What reaching run `k` asks of the engine and the benchmark. */
  function EventsOf(sig: Signer, baseline: Target, selected: seq<Target>, script: Script, k: nat): seq<Event>
    requires k < |selected|
  {
    var relaunches := Relaunches(sig, baseline, selected, k);
    (if relaunches then [Launch(selected[k], script.runs(k).restart.Completes?)] else []) +
    if relaunches && !script.runs(k).restart.Completes? then [] else [Benchmark(k)]
  }

  function EventsUpTo(sig: Signer, baseline: Target, selected: seq<Target>, script: Script, k: nat): seq<Event>
    requires k <= |selected|
  {
    if k == 0 then [Launch(baseline, true)]
    else EventsUpTo(sig, baseline, selected, script, k - 1) + EventsOf(sig, baseline, selected, script, k - 1)
  }

  /** The records, the captured error and the log agree with the script, and only the last run may have failed. */
  ghost predicate Decided(sig: Signer, s: Session, baseline: Target, selected: seq<Target>, script: Script) {
    && |s.runs| <= |selected|
    && (forall i | 0 <= i < |s.runs| :: IsEntryOf(s.runs[i], sig, baseline, selected, script, i))
    && (forall i | 0 <= i < |s.runs| - 1 :: Passes(sig, baseline, selected, script, i))
    && s.events == EventsUpTo(sig, baseline, selected, script, |s.runs|)
    && s.capturedError ==
         if s.runs == [] || Passes(sig, baseline, selected, script, |s.runs| - 1) then None
         else Some(Message(RunOutcome(sig, baseline, selected, script, |s.runs| - 1)))
  }

  /** Reaching run `k` appends its record and its events. */
  lemma {:induction false} VisitAppends(
    sig: Signer, s: Session, baseline: Target, selected: seq<Target>, script: Script)
    requires |s.runs| < |selected| && s.capturedError.None? && s.status.Running?
    requires s.currentLaunchSignature == Some(sig(PreviousTarget(baseline, selected, |s.runs|)))
    ensures var k := |s.runs|;
            var t := VisitRun(sig, s, selected[k], script.runs(k));
            && |t.runs| == k + 1 && t.runs[..k] == s.runs
            && IsEntryOf(t.runs[k], sig, baseline, selected, script, k)
            && t.events == s.events + EventsOf(sig, baseline, selected, script, k)
            && t.capturedError == if Passes(sig, baseline, selected, script, k) then None
                                  else Some(Message(RunOutcome(sig, baseline, selected, script, k)))
  {
    var k, t := |s.runs|, script.runs(|s.runs|);
    var started := StartRun(s, selected[k]);
    if Relaunches(sig, baseline, selected, k) {
      var attempted := started.(events := s.events + [Launch(selected[k], t.restart.Completes?)]);
      if !t.restart.Completes? {
        InterruptLeavesPlainFailure(attempted, t.restart);
      } else {
        var ready := attempted.(currentLaunchSignature := Some(sig(selected[k])));
        BenchmarkDecides(ready, k, t);
      }
    } else {
      BenchmarkDecides(started, k, t);
    }
  }

  lemma {:induction false} BenchmarkDecides(ready: Session, k: nat, t: RunScript)
    requires |ready.runs| == k + 1 && ready.activeRunEntry == Some(k) && ready.runs[k].status.Running?
    ensures var benchmarked := ready.(events := ready.events + [Benchmark(k)]);
            && CompleteRun(benchmarked, t.benchmarkRunUri).runs
               == ready.runs[k := ready.runs[k].(status := Completed, benchmarkRunUri := Some(t.benchmarkRunUri))]
            && FailRun(benchmarked, t.benchmark).runs
               == ready.runs[k := MarkFailed(ready.runs[k], Message(t.benchmark))]
            && FailRun(benchmarked, t.benchmark).capturedError == Some(Message(t.benchmark))
  {
    InterruptLeavesPlainFailure(ready.(events := ready.events + [Benchmark(k)]), t.benchmark);
  }

  lemma {:induction false} DecidedStep(
    sig: Signer, s: Session, baseline: Target, selected: seq<Target>, script: Script)
    requires |s.runs| < |selected| && Visited(sig, s, baseline, selected, |s.runs|) && s.capturedError.None?
    requires Decided(sig, s, baseline, selected, script)
    ensures Decided(sig, VisitRun(sig, s, selected[|s.runs|], script.runs(|s.runs|)), baseline, selected, script)
  {
    VisitAppends(sig, s, baseline, selected, script);
    DecidedAppend(sig, s, VisitRun(sig, s, selected[|s.runs|], script.runs(|s.runs|)), baseline, selected, script);
  }

  lemma {:induction false} DecidedAppend(
    sig: Signer, s: Session, t: Session, baseline: Target, selected: seq<Target>, script: Script)
    requires |s.runs| < |selected| && s.capturedError.None? && Decided(sig, s, baseline, selected, script)
    requires |t.runs| == |s.runs| + 1 && t.runs[..|s.runs|] == s.runs
    requires IsEntryOf(t.runs[|s.runs|], sig, baseline, selected, script, |s.runs|)
    requires t.events == s.events + EventsOf(sig, baseline, selected, script, |s.runs|)
    requires t.capturedError == if Passes(sig, baseline, selected, script, |s.runs|) then None
                                else Some(Message(RunOutcome(sig, baseline, selected, script, |s.runs|)))
    ensures Decided(sig, t, baseline, selected, script)
  {
    var k := |s.runs|;
    assert forall i | 0 <= i < k :: t.runs[i] == t.runs[..k][i] == s.runs[i];
  }

  lemma {:induction false} DecidedFrom(
    sig: Signer, s: Session, baseline: Target, selected: seq<Target>, k: nat, script: Script)
    requires k <= |selected| && Visited(sig, s, baseline, selected, k) && Decided(sig, s, baseline, selected, script)
    ensures var t := VisitFrom(sig, s, selected, k, script);
            Decided(sig, t, baseline, selected, script) && (|t.runs| == |selected| || t.capturedError.Some?)
    decreases |selected| - k
  {
    if s.capturedError.None? && k < |selected| {
      DecidedStep(sig, s, baseline, selected, script);
      VisitRunKeeps(sig, s, baseline, selected, k, script.runs(k));
      DecidedFrom(sig, VisitRun(sig, s, selected[k], script.runs(k)), baseline, selected, k + 1, script);
    }
  }

  /**
   What the awaits decide. When the baseline's launch does not complete, nothing is run. Otherwise the runs are
   reached one after another up to the first whose outcome does not complete; each record, the log of launches
   and benchmarks, and the error captured are those of the awaits of the runs reached. The session is completed
   exactly when the baseline and every run's awaits complete. What is thrown is the captured error's message,
   the restore's, or both joined.
   */
  lemma {:induction false} AwaitsDecide(sig: Signer, baseline: Target, selected: seq<Target>, script: Script)
    requires selected != []
    ensures var f := Matrix(sig, baseline, selected, script);
            var s := f.session;
            && (!script.baseline.Completes? ==>
                  && s.runs == [] && s.events == [Launch(baseline, false)]
                  && s.capturedError == Some(Message(script.baseline)))
            && (script.baseline.Completes? ==>
                  && Decided(sig, s, baseline, selected, script)
                  && (|s.runs| < |selected| ==> s.capturedError.Some?))
            && (s.status.Completed? <==>
                  script.baseline.Completes?
                  && forall i | 0 <= i < |selected| :: Passes(sig, baseline, selected, script, i))
            && (f.restore.RestoreFailed? <==> script.restoreError.Some?)
            && (f.thrown.None? <==> s.status.Completed? && script.restoreError.None?)
            && (s.capturedError.Some? && script.restoreError.None? ==> f.thrown == s.capturedError)
            && (s.capturedError.None? && script.restoreError.Some? ==> f.thrown == script.restoreError)
            && (s.capturedError.Some? && script.restoreError.Some? ==>
                  f.thrown == Some("Benchmark matrix failed: " + s.capturedError.value +
                                   " Baseline restore also failed: " + script.restoreError.value))
  {
    RunsDecided(sig, baseline, selected, script);
    var s := RunAll(sig, baseline, selected, script);
    if script.baseline.Completes? {
      CapturedIff(sig, s, baseline, selected, script);
    }
  }

  lemma {:induction false} RunsDecided(sig: Signer, baseline: Target, selected: seq<Target>, script: Script)
    ensures var s := RunAll(sig, baseline, selected, script);
            && (!script.baseline.Completes? ==>
                  && s.runs == [] && s.events == [Launch(baseline, false)] && s.status.Failed?
                  && s.capturedError == Some(Message(script.baseline)))
            && (script.baseline.Completes? ==>
                  && Decided(sig, s, baseline, selected, script)
                  && (|s.runs| < |selected| ==> s.capturedError.Some?)
                  && (s.status.Completed? <==> s.capturedError.None?))
  {
    BaselineLaunched(sig, baseline, selected, script);
    var launched := LaunchBaseline(sig, baseline, script);
    if launched.capturedError.None? {
      DecidedFrom(sig, launched, baseline, selected, 0, script);
    }
  }

  lemma {:induction false} CapturedIff(
    sig: Signer, s: Session, baseline: Target, selected: seq<Target>, script: Script)
    requires Decided(sig, s, baseline, selected, script) && (|s.runs| < |selected| ==> s.capturedError.Some?)
    ensures s.capturedError.None? <==>
              forall i | 0 <= i < |selected| :: Passes(sig, baseline, selected, script, i)
  {
  }

  // ---------------------------------------------------------------------------------------------
  // Every benchmark on its own engine
  // ---------------------------------------------------------------------------------------------

  /** Every benchmark ran on an engine last launched for just what its run asks for. */
  ghost predicate OwnLaunches(events: seq<Event>, selected: seq<Target>) {
    forall p | 0 <= p < |events| && events[p].Benchmark? ::
      && events[p].run < |selected|
      && var launched := LastLaunch(events[..p]);
      launched.Some? && KeyOf(launched.value) == KeyOf(selected[events[p].run])
  }

  /** A matrix whose targets take their paths from the two sets. */
  ghost predicate Over(baseline: Target, selected: seq<Target>, scripts: iset<string>, models: iset<string>) {
    selected != [] && From(baseline, scripts, models) && forall t | t in selected :: From(t, scripts, models)
  }

  ghost predicate RunsOwnLaunches(baseline: Target, selected: seq<Target>, script: Script) {
    OwnLaunches(Matrix(BuildLaunchSignature, baseline, selected, script).session.events, selected)
  }

  lemma {:induction false} FitsOwnLaunch(
    events: seq<Event>, baseline: Target, selected: seq<Target>, scripts: iset<string>, models: iset<string>)
    requires BenchmarksFit(BuildLaunchSignature, events, baseline, selected)
    requires Over(baseline, selected, scripts, models)
    requires forall script, between, model :: !Confusable(scripts, models, script, between, model)
    ensures OwnLaunches(events, selected)
  {
    SignatureIdentifiesLaunchIff(scripts, models);
    forall p | 0 <= p < |events| && events[p].Benchmark?
      ensures var launched := LastLaunch(events[..p]);
              launched.Some? && KeyOf(launched.value) == KeyOf(selected[events[p].run])
    {
      var launched := LastLaunch(events[..p]).value;
      assert Launch(launched, true) in events;
      assert From(launched, scripts, models) && From(selected[events[p].run], scripts, models);
    }
  }

  /** A script in which every await completes. */
  function AllComplete(): Script {
    Script(Completes, _ => RunScript(Completes, Completes, ""), None)
  }

  /** A run with the baseline's signature is benchmarked on the baseline's engine. */
  lemma {:induction false} SameSignatureKeepsEngine(baseline: Target, run: Target)
    requires BuildLaunchSignature(run) == BuildLaunchSignature(baseline)
    ensures Matrix(BuildLaunchSignature, baseline, [run], AllComplete()).session.events
         == [Launch(baseline, true), Benchmark(0)]
  {
    var launched := LaunchBaseline(BuildLaunchSignature, baseline, AllComplete());
    var visited := VisitRun(BuildLaunchSignature, launched, run, AllComplete().runs(0));
    assert visited.events == [Launch(baseline, true), Benchmark(0)];
    assert VisitFrom(BuildLaunchSignature, launched, [run], 0, AllComplete())
        == VisitFrom(BuildLaunchSignature, visited, [run], 1, AllComplete()) == visited;
  }

  /**
   Over sets of script and model paths, in every matrix and under every mix of outcomes, each benchmark runs
   on an engine last launched for its own start script, model, sizes and reasoning argument exactly when the
   sets are not confusable.
   */
  lemma {:induction false} EveryBenchmarkOnOwnLaunchIff(scripts: iset<string>, models: iset<string>)
    ensures (forall baseline, selected, script | Over(baseline, selected, scripts, models) ::
               RunsOwnLaunches(baseline, selected, script))
       <==> (forall script, between, model :: !Confusable(scripts, models, script, between, model))
  {
    if script, between, model :| Confusable(scripts, models, script, between, model) {
      WrongEngine(scripts, models, script, between, model);
    } else {
      forall baseline, selected, script | Over(baseline, selected, scripts, models)
        ensures RunsOwnLaunches(baseline, selected, script)
      {
        EveryMatrixRun(BuildLaunchSignature, baseline, selected, script);
        var events := Matrix(BuildLaunchSignature, baseline, selected, script).session.events;
        FitsOwnLaunch(events, baseline, selected, scripts, models);
      }
    }
  }

  /** Where script paths hold no separator, as file names cannot on Windows, every matrix runs its own launches. */
  lemma {:induction false} PlainPathsRunOwnLaunches(baseline: Target, selected: seq<Target>, script: Script)
    requires selected != [] && '|' !in baseline.startScript && forall t | t in selected :: '|' !in t.startScript
    ensures RunsOwnLaunches(baseline, selected, script)
  {
    var scripts, models := iset s: string | '|' !in s, iset m: string | 0 <= |m|;
    forall s, between, m
      ensures !Confusable(scripts, models, s, between, m)
    {
      var longer := s + ['|'] + between;
      assert longer[|s|] == '|';
    }
    EveryBenchmarkOnOwnLaunchIff(scripts, models);
    assert Over(baseline, selected, scripts, models);
  }

  lemma {:induction false} WrongEngine(
    scripts: iset<string>, models: iset<string>, script: string, between: string, model: string)
    requires Confusable(scripts, models, script, between, model)
    ensures exists baseline, selected, outcomes ::
              Over(baseline, selected, scripts, models) && !RunsOwnLaunches(baseline, selected, outcomes)
  {
    var baseline := Target("a", script, between + ['|'] + model, 1, 1, Off, true);
    var run := Target("b", script + ['|'] + between, model, 1, 1, Off, true);
    ConfusedLaunches(script, between, model);
    SameSignatureKeepsEngine(baseline, run);
    var events := [Launch(baseline, true), Benchmark(0)];
    assert events[..1] == [Launch(baseline, true)];
    assert events[1].Benchmark? && LastLaunch(events[..1]) == Some(baseline);
    assert Over(baseline, [run], scripts, models) && !RunsOwnLaunches(baseline, [run], AllComplete());
  }
}
