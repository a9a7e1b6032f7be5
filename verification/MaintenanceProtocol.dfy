/**
 The protocol by which the assistant service keeps background drains, whole-database maintenance and
 model-residency changes out of each other's way.

 The service runs on one event loop, so each stretch of code between two awaits is one atomic step
 (an `Event` here) and the steps of different calls interleave arbitrarily. Everything an await can do
 (finish, fail, finish late) is an event the environment may choose.
 */
module MaintenanceProtocol {
  import opened Prelude

  /** Where one `runMaintenance` call stands. */
  datatype OpPhase =
    | Queued                          // its turn on the chain has not come
    | Waiting(captured: Option<nat>)  // preemption requested; awaiting the drain that was active then
    | Working                         // `work()` is running
    | Settled(failed: bool)           // the chained promise has settled
    | Released(failed: bool)          // the `finally` block has run

  /** `after` is the call whose settled promise this one was chained to. */
  datatype MaintenanceOp = MaintenanceOp(after: Option<nat>, phase: OpPhase)

  datatype ResidencyOp =
    | Awaiting(captured: Option<nat>, drainsAtCall: nat)
    | Returned

  /** Finished: the drain promise has settled. Cleared: its `finally` block has run. */
  datatype DrainPhase = Running | Finished | Cleared

  datatype State = State(
    drainBlockers: int,
    maintenanceChain: Option<nat>,
    activeDrain: Option<nat>,
    preemptionRequested: bool,
    maintenance: seq<MaintenanceOp>,
    residency: seq<ResidencyOp>,
    drains: seq<DrainPhase>,
    workLog: seq<nat>)

  datatype Event =
    | CallMaintenance
    | TakeTurn(op: nat)
    | StartWork(op: nat)
    | SettleWork(op: nat, failed: bool)
    | ReleaseMaintenance(op: nat)
    | CallResidency
    | ReturnResidency(op: nat)
    | DrainTick(enabled: bool, setupFails: bool)
    | ClaimJob(drain: nat)
    | FinishDrain(drain: nat)
    | ClearDrain(drain: nat)
    | InteractiveRequest

  datatype TickOutcome = Blocked(drainBlockers: int) | Disabled | AlreadyRunning | Started(drain: nat)

  const INITIAL := State(0, None, None, false, [], [], [], [])

  predicate IsSettled(op: MaintenanceOp) {
    op.phase.Settled? || op.phase.Released?
  }

  /** An await on a captured drain continues once that drain's promise has settled. */
  predicate AwaitDone(s: State, captured: Option<nat>) {
    captured.None? || (captured.value < |s.drains| && !s.drains[captured.value].Running?)
  }

  predicate Enabled(s: State, e: Event) {
    match e
    case CallMaintenance => true
    case TakeTurn(i) =>
      i < |s.maintenance| && s.maintenance[i].phase.Queued? &&
      var after := s.maintenance[i].after;
      after.None? || (after.value < |s.maintenance| && IsSettled(s.maintenance[after.value]))
    case StartWork(i) =>
      i < |s.maintenance| && s.maintenance[i].phase.Waiting? && AwaitDone(s, s.maintenance[i].phase.captured)
    case SettleWork(i, _) => i < |s.maintenance| && s.maintenance[i].phase.Working?
    case ReleaseMaintenance(i) => i < |s.maintenance| && s.maintenance[i].phase.Settled?
    case CallResidency => true
    case ReturnResidency(r) =>
      r < |s.residency| && s.residency[r].Awaiting? && AwaitDone(s, s.residency[r].captured)
    case DrainTick(_, _) => true
    case ClaimJob(d) => d < |s.drains| && s.drains[d].Running? && !s.preemptionRequested
    case FinishDrain(d) => d < |s.drains| && s.drains[d].Running?
    case ClearDrain(d) => d < |s.drains| && s.drains[d].Finished?
    case InteractiveRequest => true
  }

  /** What a host tick does, in the order the service asks: blocked, disabled, already running. */
  function Tick(s: State, enabled: bool): TickOutcome {
    if s.drainBlockers > 0 then Blocked(s.drainBlockers)
    else if !enabled then Disabled
    else if s.activeDrain.Some? then AlreadyRunning
    else Started(|s.drains|)
  }

  function WithPhase(s: State, i: nat, phase: OpPhase): State
    requires i < |s.maintenance|
  {
    s.(maintenance := s.maintenance[i := s.maintenance[i].(phase := phase)])
  }

  function Apply(s: State, e: Event): State
    requires Enabled(s, e)
  {
    match e
    case CallMaintenance =>
      s.(drainBlockers := s.drainBlockers + 1,
      maintenance := s.maintenance + [MaintenanceOp(s.maintenanceChain, Queued)],
      maintenanceChain := Some(|s.maintenance|))
    case TakeTurn(i) => WithPhase(s, i, Waiting(s.activeDrain)).(preemptionRequested := true)
    case StartWork(i) => WithPhase(s, i, Working).(workLog := s.workLog + [i])
    case SettleWork(i, failed) => WithPhase(s, i, Settled(failed))
    case ReleaseMaintenance(i) =>
      WithPhase(s, i, Released(s.maintenance[i].phase.failed)).(drainBlockers := s.drainBlockers - 1)
    case CallResidency =>
      s.(drainBlockers := s.drainBlockers + 1,
      preemptionRequested := true,
      residency := s.residency + [Awaiting(s.activeDrain, |s.drains|)])
    case ReturnResidency(r) =>
      s.(drainBlockers := s.drainBlockers - 1, residency := s.residency[r := Returned])
    case DrainTick(enabled, setupFails) =>
      if Tick(s, enabled).Started? then
        // A drain whose synchronous set-up throws is a promise that is already rejected.
        s.(drains := s.drains + [if setupFails then Finished else Running],
        activeDrain := Some(|s.drains|),
        preemptionRequested := setupFails && s.preemptionRequested)
      else s
    case ClaimJob(d) => s
    case FinishDrain(d) => s.(drains := s.drains[d := Finished])
    case ClearDrain(d) =>
      s.(drains := s.drains[d := Cleared],
      activeDrain := if s.activeDrain == Some(d) then None else s.activeDrain)
    case InteractiveRequest => s.(preemptionRequested := true)
  }

  predicate Legal(s: State, run: seq<Event>)
    decreases |run|
  {
    run == [] || (Enabled(s, run[0]) && Legal(Apply(s, run[0]), run[1..]))
  }

  function After(s: State, run: seq<Event>): State
    requires Legal(s, run)
    decreases |run|
  {
    if run == [] then s else After(Apply(s, run[0]), run[1..])
  }

  // ---------------------------------------------------------------------------------------------
  // The joint invariant
  // ---------------------------------------------------------------------------------------------

  function OpBlocks(op: MaintenanceOp): nat {
    if op.phase.Released? then 0 else 1
  }

  function ResidencyBlocks(r: ResidencyOp): nat {
    if r.Returned? then 0 else 1
  }

  /** The counter is the number of operations that have not run their `finally` block. */
  ghost predicate BlockersCounted(s: State) {
    s.drainBlockers == Total(s.maintenance, OpBlocks) + Total(s.residency, ResidencyBlocks)
  }

  /** Every call is chained to the call before it, and starts only once that one has settled. */
  ghost predicate Chained(s: State) {
    && s.maintenanceChain == (if s.maintenance == [] then None else Some(|s.maintenance| - 1))
    && (forall i | 0 <= i < |s.maintenance| ::
          s.maintenance[i].after == if i == 0 then None else Some((i - 1) as nat))
    && (forall i, j | 0 <= i < j < |s.maintenance| ::
          !s.maintenance[j].phase.Queued? ==> IsSettled(s.maintenance[i]))
  }

  /** Works started so far, in order, are exactly the first calls in call order. */
  ghost predicate LogInCallOrder(s: State) {
    && |s.workLog| <= |s.maintenance|
    && (forall k | 0 <= k < |s.workLog| :: s.workLog[k] == k)
    && (forall i | 0 <= i < |s.maintenance| ::
          i < |s.workLog| <==> s.maintenance[i].phase.Working? || IsSettled(s.maintenance[i]))
  }

  /** `activeDrain` is the one drain that has not been cleared. */
  ghost predicate OneActiveDrain(s: State) {
    && (s.activeDrain.Some? ==> s.activeDrain.value < |s.drains| && !s.drains[s.activeDrain.value].Cleared?)
    && (forall d: nat | d < |s.drains| && !s.drains[d].Cleared? :: s.activeDrain == Some(d))
  }

  /** Whoever waits has captured and preempted any drain still running; no work runs beside a drain. */
  ghost predicate WaitersHoldTheDrain(s: State) {
    && (forall i, d: nat | 0 <= i < |s.maintenance| && d < |s.drains| && s.drains[d].Running? ::
          && !s.maintenance[i].phase.Working?
          && (s.maintenance[i].phase.Waiting? ==>
                s.maintenance[i].phase.captured == Some(d) && s.preemptionRequested))
    && (forall i | 0 <= i < |s.maintenance| && s.maintenance[i].phase.Waiting? &&
          s.maintenance[i].phase.captured.Some? :: s.maintenance[i].phase.captured.value < |s.drains|)
  }

  ghost predicate ResidencyHoldsTheDrain(s: State) {
    forall r | 0 <= r < |s.residency| && s.residency[r].Awaiting? ::
      && s.residency[r].drainsAtCall == |s.drains|
      && (s.residency[r].captured.Some? ==> s.residency[r].captured.value < |s.drains|)
      && (forall d: nat | d < |s.drains| && s.drains[d].Running? ::
            s.residency[r].captured == Some(d) && s.preemptionRequested)
  }

  ghost predicate Inv(s: State) {
    && BlockersCounted(s)
    && Chained(s)
    && LogInCallOrder(s)
    && OneActiveDrain(s)
    && WaitersHoldTheDrain(s)
    && ResidencyHoldsTheDrain(s)
  }

  /** With no blockers counted, nothing is pending. */
  lemma {:induction false} NoBlockersNoOps(s: State)
    requires BlockersCounted(s) && s.drainBlockers <= 0
    ensures forall i | 0 <= i < |s.maintenance| :: s.maintenance[i].phase.Released?
    ensures forall r | 0 <= r < |s.residency| :: s.residency[r].Returned?
  {
    TotalZero(s.maintenance, OpBlocks);
    TotalZero(s.residency, ResidencyBlocks);
    forall i | 0 <= i < |s.maintenance|
      ensures s.maintenance[i].phase.Released?
    {
      assert OpBlocks(s.maintenance[i]) == 0;
    }
    forall r | 0 <= r < |s.residency|
      ensures s.residency[r].Returned?
    {
      assert ResidencyBlocks(s.residency[r]) == 0;
    }
  }

  lemma {:induction false} BlockersKept(s: State, e: Event)
    requires BlockersCounted(s) && Enabled(s, e)
    ensures BlockersCounted(Apply(s, e))
  {
    var t := Apply(s, e);
    match e
    case CallMaintenance => TotalAppend(s.maintenance, [MaintenanceOp(s.maintenanceChain, Queued)], OpBlocks);
    case TakeTurn(i) => TotalUpdate(s.maintenance, i, t.maintenance[i], OpBlocks);
    case StartWork(i) => TotalUpdate(s.maintenance, i, t.maintenance[i], OpBlocks);
    case SettleWork(i, _) => TotalUpdate(s.maintenance, i, t.maintenance[i], OpBlocks);
    case ReleaseMaintenance(i) => TotalUpdate(s.maintenance, i, t.maintenance[i], OpBlocks);
    case CallResidency => TotalAppend(s.residency, [Awaiting(s.activeDrain, |s.drains|)], ResidencyBlocks);
    case ReturnResidency(r) => TotalUpdate(s.residency, r, Returned, ResidencyBlocks);
    case _ =>
  }

  lemma {:induction false} ChainKept(s: State, e: Event)
    requires Chained(s) && Enabled(s, e)
    ensures Chained(Apply(s, e))
  {
    var t := Apply(s, e);
    if !e.CallMaintenance? {
      assert |t.maintenance| == |s.maintenance|;
      assert forall i | 0 <= i < |s.maintenance| :: IsSettled(s.maintenance[i]) ==> IsSettled(t.maintenance[i]);
      assert forall i | 0 <= i < |s.maintenance| :: t.maintenance[i].after == s.maintenance[i].after;
    }
  }

  lemma {:induction false} LogKept(s: State, e: Event)
    requires Chained(s) && LogInCallOrder(s) && Enabled(s, e)
    ensures LogInCallOrder(Apply(s, e))
  {
    if e.StartWork? {
      // the calls before `op` have settled and `op` has not started, so the log is exactly 0 .. op-1
      assert |s.workLog| <= e.op;
      assert !IsSettled(s.maintenance[|s.workLog|]);
    }
  }

  /** A drain that starts finds no operation pending, so nothing waits for or works beside it. */
  lemma {:induction false} DrainStartKeeps(s: State, enabled: bool, setupFails: bool)
    requires Inv(s)
    ensures OneActiveDrain(Apply(s, DrainTick(enabled, setupFails)))
    ensures WaitersHoldTheDrain(Apply(s, DrainTick(enabled, setupFails)))
    ensures ResidencyHoldsTheDrain(Apply(s, DrainTick(enabled, setupFails)))
  {
    if Tick(s, enabled).Started? {
      NoBlockersNoOps(s);
    }
  }

  ghost predicate IsMaintenanceEvent(e: Event) {
    e.CallMaintenance? || e.TakeTurn? || e.StartWork? || e.SettleWork? || e.ReleaseMaintenance?
  }

  lemma {:induction false} MaintenanceKeepsDrains(s: State, e: Event)
    requires Inv(s) && Enabled(s, e) && IsMaintenanceEvent(e)
    ensures OneActiveDrain(Apply(s, e))
    ensures WaitersHoldTheDrain(Apply(s, e))
    ensures ResidencyHoldsTheDrain(Apply(s, e))
  {
    var t := Apply(s, e);
    assert t.drains == s.drains && t.residency == s.residency && t.activeDrain == s.activeDrain;
    assert s.preemptionRequested ==> t.preemptionRequested;
    if e.StartWork? {
      // the captured drain is the only one that could run, and it has settled
      assert forall d: nat | d < |s.drains| && s.drains[d].Running? ::
          s.maintenance[e.op].phase.captured == Some(d);
    }
  }

  lemma {:induction false} OtherEventsKeepDrains(s: State, e: Event)
    requires Inv(s) && Enabled(s, e) && !IsMaintenanceEvent(e) && !e.DrainTick?
    ensures OneActiveDrain(Apply(s, e))
    ensures WaitersHoldTheDrain(Apply(s, e))
    ensures ResidencyHoldsTheDrain(Apply(s, e))
  {
    var t := Apply(s, e);
    assert t.maintenance == s.maintenance && |t.drains| == |s.drains|;
    assert s.preemptionRequested ==> t.preemptionRequested;
    assert forall d: nat | d < |s.drains| && t.drains[d].Running? :: s.drains[d].Running?;
  }

  /** One atomic step keeps the joint invariant, whatever the interleaving. */
  lemma {:induction false} InvStep(s: State, e: Event)
    requires Inv(s) && Enabled(s, e)
    ensures Inv(Apply(s, e))
  {
    BlockersKept(s, e);
    ChainKept(s, e);
    LogKept(s, e);
    if e.DrainTick? {
      DrainStartKeeps(s, e.enabled, e.setupFails);
    } else if IsMaintenanceEvent(e) {
      MaintenanceKeepsDrains(s, e);
    } else {
      OtherEventsKeepDrains(s, e);
    }
  }

  lemma {:induction false} InvRun(s: State, run: seq<Event>)
    requires Inv(s) && Legal(s, run)
    ensures Inv(After(s, run))
    decreases |run|
  {
    if run != [] {
      InvStep(s, run[0]);
      InvRun(Apply(s, run[0]), run[1..]);
    }
  }

  // ---------------------------------------------------------------------------------------------
  // Safety over whole runs
  // ---------------------------------------------------------------------------------------------

  /** What may be under way at one moment. */
  ghost predicate Exclusive(s: State) {
    && (forall i, d: nat | 0 <= i < |s.maintenance| && d < |s.drains| ::
          !(s.maintenance[i].phase.Working? && s.drains[d].Running?))
    && (forall d: nat, d': nat | d < |s.drains| && d' < |s.drains| ::
          s.drains[d].Running? && s.drains[d'].Running? ==> d == d')
    && (forall i, j | 0 <= i < |s.maintenance| && 0 <= j < |s.maintenance| ::
          s.maintenance[i].phase.Working? && s.maintenance[j].phase.Working? ==> i == j)
  }

  lemma {:induction false} InvExcludes(s: State)
    requires Inv(s)
    ensures Exclusive(s)
  {
    forall i, j | 0 <= i < j < |s.maintenance| && s.maintenance[j].phase.Working?
      ensures !s.maintenance[i].phase.Working?
    {
      assert IsSettled(s.maintenance[i]);
    }
  }

  /**
   In every interleaving: no drain runs beside a maintenance work, drains never overlap, works never
   overlap, works have started exactly in call order, and the counter is the number of operations
   that have not been released.
   */
  lemma {:induction false} SafeInEveryInterleaving(run: seq<Event>)
    requires Legal(INITIAL, run)
    ensures var s := After(INITIAL, run);
            && Exclusive(s)
            && |s.workLog| <= |s.maintenance|
            && (forall k | 0 <= k < |s.workLog| :: s.workLog[k] == k)
            && s.drainBlockers == Total(s.maintenance, OpBlocks) + Total(s.residency, ResidencyBlocks)
  {
    InvRun(INITIAL, run);
    InvExcludes(After(INITIAL, run));
  }

  /**
   A work starts only when every earlier work has settled, whether it failed or not, and no drain is
   running; while it runs, every tick is refused.
   */
  lemma {:induction false} WorkStartsAlone(run: seq<Event>, i: nat)
    requires Legal(INITIAL, run) && Enabled(After(INITIAL, run), StartWork(i))
    ensures var s := After(INITIAL, run);
            && (forall j | 0 <= j < i :: IsSettled(s.maintenance[j]))
            && (forall d: nat | d < |s.drains| :: !s.drains[d].Running?)
            && (forall enabled :: Tick(s, enabled).Blocked?)
  {
    var s := After(INITIAL, run);
    InvRun(INITIAL, run);
    MaintenanceKeepsDrains(s, StartWork(i));
    PendingBlocks(s, i);
    var captured := s.maintenance[i].phase.captured;
    assert forall d: nat | d < |s.drains| && s.drains[d].Running? :: captured == Some(d);
  }

  lemma {:induction false} PendingBlocks(s: State, i: nat)
    requires BlockersCounted(s) && i < |s.maintenance| && !s.maintenance[i].phase.Released?
    ensures s.drainBlockers > 0
  {
    TotalZero(s.maintenance, OpBlocks);
    assert OpBlocks(s.maintenance[i]) == 1;
  }

  ghost predicate SomePending(s: State) {
    || (exists i :: 0 <= i < |s.maintenance| && !s.maintenance[i].phase.Released?)
    || (exists r :: 0 <= r < |s.residency| && s.residency[r].Awaiting?)
  }

  ghost predicate SomeoneWaits(s: State) {
    || (exists i :: 0 <= i < |s.maintenance| && s.maintenance[i].phase.Waiting?)
    || (exists r :: 0 <= r < |s.residency| && s.residency[r].Awaiting?)
  }

  lemma {:induction false} PendingIffBlocked(s: State)
    requires BlockersCounted(s)
    ensures SomePending(s) <==> s.drainBlockers > 0
  {
    if s.drainBlockers <= 0 {
      NoBlockersNoOps(s);
    } else {
      TotalZero(s.maintenance, OpBlocks);
      TotalZero(s.residency, ResidencyBlocks);
    }
    if i :| 0 <= i < |s.maintenance| && !s.maintenance[i].phase.Released? {
      PendingBlocks(s, i);
    }
  }

  lemma {:induction false} BlockedTick(s: State)
    ensures s.drainBlockers > 0 <==> forall enabled :: Tick(s, enabled).Blocked?
    ensures s.drainBlockers > 0 ==> forall enabled, setupFails :: Apply(s, DrainTick(enabled, setupFails)) == s
  {
    assert s.drainBlockers <= 0 ==> !Tick(s, false).Blocked?;
  }

  lemma {:induction false} WaitedForDrainClaimsNothing(s: State, d: nat)
    requires WaitersHoldTheDrain(s) && ResidencyHoldsTheDrain(s) && SomeoneWaits(s)
    ensures !Enabled(s, ClaimJob(d))
  {
    if i :| 0 <= i < |s.maintenance| && s.maintenance[i].phase.Waiting? {
      assert d < |s.drains| && s.drains[d].Running? ==> s.preemptionRequested;
    }
  }

  /**
   A tick is blocked exactly while some operation is pending, and then it changes nothing; and while anyone
   waits for a drain, that drain claims no further job.
   */
  lemma {:induction false} PendingOperationsHoldDrains(run: seq<Event>, d: nat)
    requires Legal(INITIAL, run)
    ensures var s := After(INITIAL, run);
            && (SomePending(s) <==> forall enabled :: Tick(s, enabled).Blocked?)
            && (SomePending(s) ==> forall enabled, setupFails :: Apply(s, DrainTick(enabled, setupFails)) == s)
            && (SomeoneWaits(s) ==> !Enabled(s, ClaimJob(d)))
  {
    var s := After(INITIAL, run);
    InvRun(INITIAL, run);
    PendingIffBlocked(s);
    BlockedTick(s);
    if SomeoneWaits(s) {
      WaitedForDrainClaimsNothing(s, d);
    }
  }

  /**
   What a tick does, in every interleaving. It is blocked exactly while an operation is pending; otherwise it is
   refused as disabled exactly when the service is, and as already running exactly while some drain has not
   been cleared. Only when none of these holds does it change anything: then it appends one drain.
   */
  lemma {:induction false} TickAnswers(run: seq<Event>, enabled: bool, setupFails: bool)
    requires Legal(INITIAL, run)
    ensures var s := After(INITIAL, run);
            var t := Apply(s, DrainTick(enabled, setupFails));
            var busy := exists d: nat :: d < |s.drains| && !s.drains[d].Cleared?;
            && (Tick(s, enabled).Blocked? <==> SomePending(s))
            && (Tick(s, enabled).Disabled? <==> !SomePending(s) && !enabled)
            && (Tick(s, enabled).AlreadyRunning? <==> !SomePending(s) && enabled && busy)
            && (t != s <==> !SomePending(s) && enabled && !busy)
            && (t != s ==> && t.drains == s.drains + [if setupFails then Finished else Running]
                           && t.activeDrain == Some(|s.drains|)
                           && t.maintenance == s.maintenance && t.residency == s.residency
                           && t.drainBlockers == s.drainBlockers && t.maintenanceChain == s.maintenanceChain)
            && (Tick(s, enabled).Blocked? ==>
                  Tick(s, enabled).drainBlockers
                    == Total(s.maintenance, OpBlocks) + Total(s.residency, ResidencyBlocks))
  {
    InvRun(INITIAL, run);
    PendingIffBlocked(After(INITIAL, run));
    TickOfState(After(INITIAL, run), enabled, setupFails);
  }

  lemma {:induction false} TickOfState(s: State, enabled: bool, setupFails: bool)
    requires OneActiveDrain(s)
    ensures var t := Apply(s, DrainTick(enabled, setupFails));
            var busy := exists d: nat :: d < |s.drains| && !s.drains[d].Cleared?;
            && (Tick(s, enabled).Disabled? <==> s.drainBlockers <= 0 && !enabled)
            && (Tick(s, enabled).AlreadyRunning? <==> s.drainBlockers <= 0 && enabled && busy)
            && (t != s <==> s.drainBlockers <= 0 && enabled && !busy)
  {
    assert s.activeDrain.Some? ==> !s.drains[s.activeDrain.value].Cleared?;
    var t := Apply(s, DrainTick(enabled, setupFails));
    assert Tick(s, enabled).Started? ==> |t.drains| == |s.drains| + 1;
  }

  /** Calls, ticks and requests come from outside and are never held up; each is taken at once. */
  lemma {:induction false} CallsAreTaken(s: State, enabled: bool, setupFails: bool)
    ensures Enabled(s, CallMaintenance) && Enabled(s, CallResidency) && Enabled(s, InteractiveRequest)
    ensures Enabled(s, DrainTick(enabled, setupFails))
    ensures s.drainBlockers >= 0 ==>
              && Tick(Apply(s, CallMaintenance), enabled).Blocked?
              && Tick(Apply(s, CallResidency), enabled).Blocked?
  {
  }

  /** A drain that has just started may claim jobs, whatever preempted the one before it. */
  lemma {:induction false} NewDrainMayClaim(s: State)
    requires Tick(s, true).Started?
    ensures Enabled(Apply(s, DrainTick(true, false)), ClaimJob(|s.drains|))
  {
  }

  /** After an interactive request no drain claims a job until another drain is started. */
  lemma {:induction false} InteractiveRequestPreempts(s: State, run: seq<Event>, d: nat)
    requires Legal(Apply(s, InteractiveRequest), run)
    ensures var t := After(Apply(s, InteractiveRequest), run);
            |t.drains| == |s.drains| ==> !Enabled(t, ClaimJob(d))
  {
    StaysPreempted(Apply(s, InteractiveRequest), run);
  }

  lemma {:induction false} StaysPreempted(s: State, run: seq<Event>)
    requires Legal(s, run)
    ensures |s.drains| <= |After(s, run).drains|
    ensures s.preemptionRequested && |After(s, run).drains| == |s.drains| ==> After(s, run).preemptionRequested
    decreases |run|
  {
    if run != [] {
      StaysPreempted(Apply(s, run[0]), run[1..]);
    }
  }

  /** A call reports what its own work settled with, whatever happens in between. */
  lemma {:induction false} OutcomeKept(s: State, run: seq<Event>, op: nat)
    requires Legal(s, run) && op < |s.maintenance| && IsSettled(s.maintenance[op])
    ensures var t := After(s, run);
            && op < |t.maintenance| && IsSettled(t.maintenance[op])
            && t.maintenance[op].phase.failed == s.maintenance[op].phase.failed
    decreases |run|
  {
    if run != [] {
      OutcomeKept(Apply(s, run[0]), run[1..], op);
    }
  }

  lemma {:induction false} WorkOutcomeReported(s: State, op: nat, failed: bool, run: seq<Event>)
    requires Enabled(s, SettleWork(op, failed)) && Legal(Apply(s, SettleWork(op, failed)), run)
    ensures var t := After(Apply(s, SettleWork(op, failed)), run);
            op < |t.maintenance| && IsSettled(t.maintenance[op]) && t.maintenance[op].phase.failed == failed
  {
    OutcomeKept(Apply(s, SettleWork(op, failed)), run, op);
  }

  /** A residency call's record keeps what it captured until it returns. */
  lemma {:induction false} ResidencyRecordKept(s: State, run: seq<Event>, r: nat)
    requires Legal(s, run) && r < |s.residency|
    ensures var t := After(s, run);
            r < |t.residency| && (t.residency[r] == s.residency[r] || t.residency[r].Returned?)
    decreases |run|
  {
    if run != [] {
      ResidencyRecordKept(Apply(s, run[0]), run[1..], r);
    }
  }

  /** What a residency call captured is the only drain that could still run when its await is done. */
  lemma {:induction false} AwaitedResidencyIsQuiet(s: State, r: nat)
    requires OneActiveDrain(s) && ResidencyHoldsTheDrain(s) && Enabled(s, ReturnResidency(r))
    ensures s.residency[r].drainsAtCall == |s.drains|
    ensures forall d: nat | d < |s.drains| :: !s.drains[d].Running?
  {
    assert forall d: nat | d < |s.drains| && s.drains[d].Running? :: s.residency[r].captured == Some(d);
  }

  /**
   `onModelResidencyChanging` returns only when the drain that was active at its call has ended, and
   from the call to the return no drain has started.
   */
  lemma {:induction false} ResidencyReturnsQuiet(before: seq<Event>, during: seq<Event>)
    requires Legal(INITIAL, before)
    requires Legal(Apply(After(INITIAL, before), CallResidency), during)
    ensures var s := After(INITIAL, before);
            var t := After(Apply(s, CallResidency), during);
            Enabled(t, ReturnResidency(|s.residency|)) ==>
              |t.drains| == |s.drains| && forall d: nat | d < |t.drains| :: !t.drains[d].Running?
  {
    var s := After(INITIAL, before);
    var called := Apply(s, CallResidency);
    InvRun(INITIAL, before);
    InvStep(s, CallResidency);
    ResidencyCallQuiet(called, during, |s.residency|);
  }

  lemma {:induction false} ResidencyCallQuiet(called: State, during: seq<Event>, r: nat)
    requires Inv(called) && Legal(called, during)
    requires r < |called.residency| && called.residency[r].Awaiting?
    ensures var t := After(called, during);
            Enabled(t, ReturnResidency(r)) ==>
              && |t.drains| == called.residency[r].drainsAtCall
              && forall d: nat | d < |t.drains| :: !t.drains[d].Running?
  {
    var t := After(called, during);
    InvRun(called, during);
    ResidencyRecordKept(called, during, r);
    if Enabled(t, ReturnResidency(r)) {
      AwaitedResidencyIsQuiet(t, r);
    }
  }

  /** The guard before clearing `activeDrain` never fails: no other drain can have replaced it. */
  lemma {:induction false} ClearGuardAlwaysHolds(run: seq<Event>, d: nat)
    requires Legal(INITIAL, run) && Enabled(After(INITIAL, run), ClearDrain(d))
    ensures After(INITIAL, run).activeDrain == Some(d)
  {
    InvRun(INITIAL, run);
  }

  // ---------------------------------------------------------------------------------------------
  // Nothing is ever stuck
  // ---------------------------------------------------------------------------------------------

  /** Calls made from outside, and the claims a running drain makes; everything else is completion. */
  predicate IsCompletion(e: Event) {
    !(e.CallMaintenance? || e.CallResidency? || e.DrainTick? || e.InteractiveRequest? || e.ClaimJob?)
  }

  function OpSteps(op: MaintenanceOp): nat {
    match op.phase
    case Queued => 4
    case Waiting(_) => 3
    case Working => 2
    case Settled(_) => 1
    case Released(_) => 0
  }

  function DrainSteps(d: DrainPhase): nat {
    match d
    case Running => 2
    case Finished => 1
    case Cleared => 0
  }

  /** How many completion steps are still owed. */
  function Outstanding(s: State): nat {
    Total(s.maintenance, OpSteps) + Total(s.residency, ResidencyBlocks) + Total(s.drains, DrainSteps)
  }

  /** Each completion step settles exactly one owed step. */
  lemma {:induction false} CompletionCounts(s: State, e: Event)
    requires Enabled(s, e) && IsCompletion(e)
    ensures Outstanding(Apply(s, e)) == Outstanding(s) - 1
  {
    var t := Apply(s, e);
    match e
    case TakeTurn(i) => TotalUpdate(s.maintenance, i, t.maintenance[i], OpSteps);
    case StartWork(i) => TotalUpdate(s.maintenance, i, t.maintenance[i], OpSteps);
    case SettleWork(i, _) => TotalUpdate(s.maintenance, i, t.maintenance[i], OpSteps);
    case ReleaseMaintenance(i) => TotalUpdate(s.maintenance, i, t.maintenance[i], OpSteps);
    case ReturnResidency(r) => TotalUpdate(s.residency, r, Returned, ResidencyBlocks);
    case FinishDrain(d) => TotalUpdate(s.drains, d, Finished, DrainSteps);
    case ClearDrain(d) => TotalUpdate(s.drains, d, Cleared, DrainSteps);
  }

  /** The first call that is not released, if any. */
  function FirstUnreleased(ops: seq<MaintenanceOp>): (i: nat)
    ensures i <= |ops|
    ensures i < |ops| ==> !ops[i].phase.Released?
    ensures forall j | 0 <= j < i :: ops[j].phase.Released?
  {
    if ops == [] || !ops[0].phase.Released? then 0 else 1 + FirstUnreleased(ops[1..])
  }

  /** There is no deadlock: while a step is owed, some completion step can be taken. */
  lemma {:induction false} SomeCompletionEnabled(s: State) returns (e: Event)
    requires Inv(s) && Outstanding(s) > 0
    ensures IsCompletion(e) && Enabled(s, e)
  {
    if d: nat :| d < |s.drains| && s.drains[d].Running? {
      return FinishDrain(d);
    } else if d: nat :| d < |s.drains| && s.drains[d].Finished? {
      return ClearDrain(d);
    } else if r: nat :| r < |s.residency| && s.residency[r].Awaiting? {
      return ReturnResidency(r);
    }
    TotalZero(s.drains, DrainSteps);
    TotalZero(s.residency, ResidencyBlocks);
    TotalZero(s.maintenance, OpSteps);
    var i := FirstUnreleased(s.maintenance);
    assert i < |s.maintenance|;
    match s.maintenance[i].phase
    case Queued => return TakeTurn(i);
    case Waiting(_) => return StartWork(i);
    case Working => return SettleWork(i, true);
    case Settled(_) => return ReleaseMaintenance(i);
  }

  /** A run of completion steps settles one owed step each, whatever fails along the way. */
  lemma {:induction false} CompletionRunCounts(s: State, run: seq<Event>)
    requires Legal(s, run) && forall e | e in run :: IsCompletion(e)
    ensures Outstanding(After(s, run)) == Outstanding(s) - |run|
    decreases |run|
  {
    if run != [] {
      CompletionCounts(s, run[0]);
      CompletionRunCounts(Apply(s, run[0]), run[1..]);
    }
  }

  ghost predicate Quiet(s: State) {
    && s.drainBlockers == 0
    && s.activeDrain.None?
    && (forall i | 0 <= i < |s.maintenance| :: s.maintenance[i].phase.Released?)
    && (forall r | 0 <= r < |s.residency| :: s.residency[r].Returned?)
    && (forall d | 0 <= d < |s.drains| :: s.drains[d].Cleared?)
    && (forall k | 0 <= k < |s.workLog| :: s.workLog[k] == k)
    && |s.workLog| == |s.maintenance|
  }

  lemma {:induction false} NothingOwedIsQuiet(s: State)
    requires Inv(s)
    ensures Outstanding(s) == 0 <==> Quiet(s)
  {
    TotalZero(s.drains, DrainSteps);
    TotalZero(s.residency, ResidencyBlocks);
    TotalZero(s.maintenance, OpSteps);
    TotalZero(s.maintenance, OpBlocks);
    assert forall i | 0 <= i < |s.maintenance| ::
        && (OpSteps(s.maintenance[i]) == 0 <==> s.maintenance[i].phase.Released?)
        && (OpBlocks(s.maintenance[i]) == 0 <==> s.maintenance[i].phase.Released?);
    assert forall r | 0 <= r < |s.residency| :: ResidencyBlocks(s.residency[r]) == 0 <==> s.residency[r].Returned?;
    assert forall d | 0 <= d < |s.drains| :: DrainSteps(s.drains[d]) == 0 <==> s.drains[d].Cleared?;
    if Outstanding(s) == 0 {
      assert s.maintenance != [] ==> IsSettled(s.maintenance[|s.maintenance| - 1]);
    }
  }

  /**
   With no new calls, every run that cannot be continued ends quiet: each call's work has run exactly
   once in call order, the counter is back to 0 and the next tick of an enabled service starts a drain.
   Such a run takes exactly the owed number of steps, and any shorter one can be continued.
   */
  lemma {:induction false} EveryRunWindsDown(run: seq<Event>, wind: seq<Event>)
    requires Legal(INITIAL, run) && Legal(After(INITIAL, run), wind)
    requires forall e | e in wind :: IsCompletion(e)
    ensures var s := After(INITIAL, run);
            var t := After(s, wind);
            && |wind| <= Outstanding(s)
            && (|wind| == Outstanding(s) <==> Quiet(t))
            && (Quiet(t) ==> Tick(t, true) == Started(|t.drains|))
            && (!Quiet(t) ==> exists e :: IsCompletion(e) && Enabled(t, e))
  {
    var s := After(INITIAL, run);
    var t := After(s, wind);
    InvRun(INITIAL, run);
    InvRun(s, wind);
    CompletionRunCounts(s, wind);
    NothingOwedIsQuiet(t);
    if !Quiet(t) {
      var e := SomeCompletionEnabled(t);
    }
  }
}
