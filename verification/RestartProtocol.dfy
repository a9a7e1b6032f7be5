/**
 The restart supervisor as a protocol. It runs one child, restarts it after accepted source changes, and
 stops for good on a shutdown request. Code between awaits is one event; a child exits when it likes.
 The second, forced interrupt is outside this model.
 */
module RestartProtocol {
  import opened Prelude

  datatype FileStamp = FileStamp(mtimeMs: real, size: nat)

  /** `version` is the number of source changes accepted before the child was spawned. */
  datatype Child = Child(version: nat, live: bool)

  datatype State = State(
    stopping: bool,
    restartInFlight: bool,
    restartQueued: bool,
    timerPending: bool,
    stamps: map<string, FileStamp>,
    child: nat,
    // what the suspended frames wait for, and what has happened so far
    restartAwaits: Option<nat>,
    stopAwaits: Option<nat>,
    children: seq<Child>,
    edits: nat,
    exited: bool)

  datatype Event =
    | SourceEvent(file: string, watched: bool, current: Option<FileStamp>)
    | TimerFires
    | ChildExits(child: nat)
    | RestartResumes
    | StopRequested
    | StopResumes

  function Recorded(stamps: map<string, FileStamp>, file: string): Option<FileStamp> {
    if file in stamps then Some(stamps[file]) else None
  }

  function Record(stamps: map<string, FileStamp>, file: string, current: Option<FileStamp>): map<string, FileStamp> {
    if current.None? then stamps - {file} else stamps[file := current.value]
  }

  predicate IsSourceChange(previous: Option<FileStamp>, current: Option<FileStamp>, watchStartedAtMs: real) {
    if current.None? then previous.Some?
    else if previous.None? then current.value.mtimeMs > watchStartedAtMs
    else current.value.mtimeMs != previous.value.mtimeMs || current.value.size != previous.value.size
  }

  function Initial(stamps: map<string, FileStamp>): State {
    State(false, false, false, false, stamps, 0, None, None, [Child(0, true)], 0, false)
  }

  predicate Gone(s: State, c: Option<nat>) {
    c.Some? && c.value < |s.children| && !s.children[c.value].live
  }

  predicate Enabled(s: State, e: Event) {
    !s.exited &&
    match e
    case SourceEvent(_, _, _) => true
    case TimerFires => s.timerPending
    case ChildExits(c) => c < |s.children| && s.children[c].live
    case RestartResumes => Gone(s, s.restartAwaits)
    case StopRequested => !s.stopping
    case StopResumes => Gone(s, s.stopAwaits)
  }

  function StartChild(s: State): State {
    s.(child := |s.children|, children := s.children + [Child(s.edits, true)])
  }

  function OnSourceEvent(
    s: State, file: string, watched: bool, current: Option<FileStamp>, watchStartedAtMs: real): State
  {
    if s.stopping || !watched then s
    else
      var changed := IsSourceChange(Recorded(s.stamps, file), current, watchStartedAtMs);
      var recorded := s.(stamps := Record(s.stamps, file, current));
      if changed then recorded.(timerPending := true, edits := s.edits + 1) else recorded
  }

  function Apply(s: State, e: Event, watchStartedAtMs: real): State
    requires Enabled(s, e)
  {
    match e
    case SourceEvent(file, watched, current) => OnSourceEvent(s, file, watched, current, watchStartedAtMs)
    case TimerFires =>
      var fired := s.(timerPending := false);
      if s.restartInFlight then fired.(restartQueued := true)
      else fired.(restartInFlight := true, restartQueued := false, restartAwaits := Some(s.child))
    case ChildExits(c) => s.(children := s.children[c := s.children[c].(live := false)])
    case RestartResumes =>
      var started := if s.stopping then s else StartChild(s);
      if s.restartQueued && !s.stopping then started.(restartQueued := false, restartAwaits := Some(started.child))
      else started.(restartInFlight := false, restartAwaits := None)
    case StopRequested => s.(stopping := true, timerPending := false, stopAwaits := Some(s.child))
    case StopResumes => s.(exited := true)
  }

  predicate Legal(s: State, run: seq<Event>, watchStartedAtMs: real)
    decreases |run|
  {
    run == [] || (Enabled(s, run[0]) && Legal(Apply(s, run[0], watchStartedAtMs), run[1..], watchStartedAtMs))
  }

  function After(s: State, run: seq<Event>, watchStartedAtMs: real): State
    requires Legal(s, run, watchStartedAtMs)
    decreases |run|
  {
    if run == [] then s else After(Apply(s, run[0], watchStartedAtMs), run[1..], watchStartedAtMs)
  }

  ghost predicate Inv(s: State) {
    // the newest child is the current one, and no older child lives
    && s.child + 1 == |s.children|
    && (forall c | 0 <= c < s.child :: !s.children[c].live)
    // whoever waits, waits for the current child
    && s.restartAwaits == (if s.restartInFlight then Some(s.child) else None)
    && s.stopAwaits == (if s.stopping then Some(s.child) else None)
    && (s.restartQueued && !s.stopping ==> s.restartInFlight)
    && (s.stopping ==> !s.timerPending)
    && (s.exited ==> s.stopping && !s.children[s.child].live)
    // an accepted change is in the current child, or a restart is on its way
    && (s.stopping || s.timerPending || s.restartInFlight || s.children[s.child].version == s.edits)
  }

  /** The supervisor starts with one live child that has every change there is, and nothing under way. */
  lemma {:induction false} StartsWithOneChild(stamps: map<string, FileStamp>)
    ensures var s := Initial(stamps);
            && s.children == [Child(0, true)] && s.child == 0 && s.edits == 0 && s.stamps == stamps
            && !s.timerPending && !s.restartInFlight && !s.restartQueued && !s.stopping && !s.exited
            && Inv(s)
    ensures forall s: State, file, watched, current | !s.exited :: Enabled(s, SourceEvent(file, watched, current))
    ensures forall s: State | !s.exited && !s.stopping :: Enabled(s, StopRequested)
  {
  }

  lemma {:induction false} InvStep(s: State, e: Event, watchStartedAtMs: real)
    requires Inv(s) && Enabled(s, e)
    ensures Inv(Apply(s, e, watchStartedAtMs))
  {
  }

  lemma {:induction false} InvRun(s: State, run: seq<Event>, watchStartedAtMs: real)
    requires Inv(s) && Legal(s, run, watchStartedAtMs)
    ensures Inv(After(s, run, watchStartedAtMs))
    decreases |run|
  {
    if run != [] {
      InvStep(s, run[0], watchStartedAtMs);
      InvRun(Apply(s, run[0], watchStartedAtMs), run[1..], watchStartedAtMs);
    }
  }

  /**
   In every run: never two live children, none live at a graceful exit, and whenever no timer is
   pending, no restart is in flight and nobody is stopping, the current child was spawned after the last
   accepted source change.
   */
  lemma {:induction false} SupervisionIsSafe(stamps: map<string, FileStamp>, run: seq<Event>, watchStartedAtMs: real)
    requires Legal(Initial(stamps), run, watchStartedAtMs)
    ensures var s := After(Initial(stamps), run, watchStartedAtMs);
            && s.child < |s.children|
            && (forall c, d | 0 <= c < |s.children| && 0 <= d < |s.children| ::
                  s.children[c].live && s.children[d].live ==> c == d)
            && (s.exited ==> forall c | 0 <= c < |s.children| :: !s.children[c].live)
            && (!s.timerPending && !s.restartInFlight && !s.stopping ==> s.children[s.child].version == s.edits)
  {
    InvRun(Initial(stamps), run, watchStartedAtMs);
  }

  /** Once stopping, no child is ever started again and the request is never withdrawn. */
  lemma {:induction false} NoStartAfterStopping(s: State, run: seq<Event>, watchStartedAtMs: real)
    requires s.stopping && Legal(s, run, watchStartedAtMs)
    ensures var t := After(s, run, watchStartedAtMs);
            t.stopping && |t.children| == |s.children| && t.edits == s.edits
    decreases |run|
  {
    if run != [] {
      NoStartAfterStopping(Apply(s, run[0], watchStartedAtMs), run[1..], watchStartedAtMs);
    }
  }

  // ---------------------------------------------------------------------------------------------
  // Which file events count
  // ---------------------------------------------------------------------------------------------

  /** A change of a file's stamp counts unless the file appears with a time from before the watch began. */
  lemma {:induction false} ChangeCountsIff(
    previous: Option<FileStamp>, current: Option<FileStamp>, watchStartedAtMs: real)
    ensures IsSourceChange(previous, current, watchStartedAtMs) <==>
              previous != current && (previous.Some? || current.value.mtimeMs > watchStartedAtMs)
  {
  }

  /**
   Which events ask for a restart: those of a watched file whose stamp differs from the recorded one, unless the
   file appears with a time from before the watch, and none once stopping. Such an event is one more accepted
   change and leaves the timer pending; no other event touches the timer, and none touches anything else but the
   stamps.
   */
  lemma {:induction false} EventAcceptedIff(
    s: State, file: string, watched: bool, current: Option<FileStamp>, watchStartedAtMs: real)
    requires Enabled(s, SourceEvent(file, watched, current))
    ensures var previous := Recorded(s.stamps, file);
            var t := Apply(s, SourceEvent(file, watched, current), watchStartedAtMs);
            && (t.edits != s.edits <==>
                  && !s.stopping && watched && previous != current
                  && (previous.Some? || current.value.mtimeMs > watchStartedAtMs))
            && (t.edits == s.edits || t.edits == s.edits + 1)
            && (t.timerPending <==> s.timerPending || t.edits != s.edits)
            && t == s.(edits := t.edits, timerPending := t.timerPending, stamps := t.stamps)
  {
  }

  /**
   A timer that fires begins a restart of the current child, or, during a restart, asks for one more round. The
   restart goes on when the current child has gone: it then starts a child with every change accepted so far,
   and goes on to the child just started exactly when one more round was asked for. A supervisor that is
   stopping starts none and ends the restart.
   */
  lemma {:induction false} RestartRounds(s: State, e: Event, watchStartedAtMs: real)
    requires Inv(s) && Enabled(s, e)
    ensures var t := Apply(s, e, watchStartedAtMs);
            && (e.TimerFires? ==>
                  && !t.timerPending && t.children == s.children && t.restartInFlight
                  && t.restartAwaits == Some(s.child) && (t.restartQueued <==> s.restartInFlight))
            && (e.RestartResumes? && !s.stopping ==>
                  && !s.children[s.child].live
                  && t.children == s.children + [Child(s.edits, true)] && t.child == |s.children|
                  && !t.restartQueued
                  && (t.restartInFlight <==> s.restartQueued)
                  && (t.restartInFlight ==> t.restartAwaits == Some(t.child)))
            && (e.RestartResumes? && s.stopping ==>
                  t.children == s.children && t.child == s.child && !t.restartInFlight)
  {
  }

  /** A stop request drops the timer and waits for the current child, and the process exits only when it has gone. */
  lemma {:induction false} StopWaits(s: State, e: Event, watchStartedAtMs: real)
    requires Inv(s) && Enabled(s, e)
    ensures var t := Apply(s, e, watchStartedAtMs);
            && (e.StopRequested? ==>
                  && !s.stopping && t.stopping && !t.timerPending && t.stopAwaits == Some(s.child)
                  && t.children == s.children && !t.exited)
            && (t.exited <==> e.StopResumes?)
            && (e.StopResumes? ==> s.stopping && !s.children[s.child].live)
            && (t.stopping <==> s.stopping || e.StopRequested?)
            && (e.ChildExits? ==> t == s.(children := s.children[e.child := s.children[e.child].(live := false)]))
  {
  }

  /** After an event the recorded stamp is the current one, so the same event again is not a change. */
  lemma {:induction false} RepeatedEventIgnored(
      s: State, file: string, watched: bool, current: Option<FileStamp>, watchStartedAtMs: real)
    ensures var once := OnSourceEvent(s, file, watched, current, watchStartedAtMs);
            && OnSourceEvent(once, file, watched, current, watchStartedAtMs) == once
            && (watched && !s.stopping ==> Recorded(once.stamps, file) == current)
            && (forall other | other != file :: Recorded(once.stamps, other) == Recorded(s.stamps, other))
  {
    var once := OnSourceEvent(s, file, watched, current, watchStartedAtMs);
    assert Record(Record(s.stamps, file, current), file, current) == Record(s.stamps, file, current);
  }

  /**
   Putting a deleted file back with its old time asks for no restart beyond the deletion's: a child that the
   deletion's restart has already started keeps running without the file.
   */
  lemma {:induction false} RestoredFileMissed(s: State, file: string, stamp: FileStamp, watchStartedAtMs: real)
    requires !s.stopping && Recorded(s.stamps, file) == Some(stamp) && stamp.mtimeMs <= watchStartedAtMs
    ensures var deleted := OnSourceEvent(s, file, true, None, watchStartedAtMs);
            var restored := OnSourceEvent(deleted, file, true, Some(stamp), watchStartedAtMs);
            deleted.edits == s.edits + 1 && restored.edits == deleted.edits && restored.stamps == s.stamps
  {
    assert Record(Record(s.stamps, file, None), file, Some(stamp)) == s.stamps;
  }

  // ---------------------------------------------------------------------------------------------
  // The supervisor always settles
  // ---------------------------------------------------------------------------------------------

  predicate IsCompletion(e: Event) {
    e.TimerFires? || e.ChildExits? || e.RestartResumes? || e.StopResumes?
  }

  function Liveness(c: Child): nat {
    if c.live then 1 else 0
  }

  function Owed(s: State): nat {
    (if s.timerPending then 3 else 0) + (if s.restartInFlight then 2 else 0) +
    (if s.restartQueued then 2 else 0) + (if s.exited then 0 else 1) + Total(s.children, Liveness)
  }

  lemma {:induction false} CompletionPays(s: State, e: Event, watchStartedAtMs: real)
    requires Inv(s) && Enabled(s, e) && IsCompletion(e)
    ensures Owed(Apply(s, e, watchStartedAtMs)) < Owed(s)
  {
    match e
    case ChildExits(c) => TotalUpdate(s.children, c, s.children[c].(live := false), Liveness);
    case RestartResumes => TotalAppend(s.children, [Child(s.edits, true)], Liveness);
    case _ =>
  }

  lemma {:induction false} CompletionRunPays(s: State, run: seq<Event>, watchStartedAtMs: real)
    requires Inv(s) && Legal(s, run, watchStartedAtMs) && forall e | e in run :: IsCompletion(e)
    ensures Inv(After(s, run, watchStartedAtMs))
    ensures Owed(After(s, run, watchStartedAtMs)) + |run| <= Owed(s)
    decreases |run|
  {
    if run != [] {
      CompletionPays(s, run[0], watchStartedAtMs);
      InvStep(s, run[0], watchStartedAtMs);
      CompletionRunPays(Apply(s, run[0], watchStartedAtMs), run[1..], watchStartedAtMs);
    }
  }

  ghost predicate Settled(s: State) {
    if s.stopping then s.exited else !s.timerPending && !s.restartInFlight
  }

  /**
   Once edits stop, every run of timers, exits and continuations is finite, and until the supervisor has
   settled some such step is possible (an awaited child's exit included). Settled without stopping, the
   current child has every accepted change; settled after a stop request, the process has exited.
   */
  lemma {:induction false} SupervisorSettles(
    stamps: map<string, FileStamp>, run: seq<Event>, wind: seq<Event>, watchStartedAtMs: real)
    requires Legal(Initial(stamps), run, watchStartedAtMs)
    requires Legal(After(Initial(stamps), run, watchStartedAtMs), wind, watchStartedAtMs)
    requires forall e | e in wind :: IsCompletion(e)
    ensures var s := After(Initial(stamps), run, watchStartedAtMs);
            var t := After(s, wind, watchStartedAtMs);
            && |wind| <= Owed(s)
            && t.child < |t.children|
            && (!Settled(t) ==> exists e :: IsCompletion(e) && Enabled(t, e))
            && (Settled(t) && !t.stopping ==> t.children[t.child].version == t.edits)
  {
    var s := After(Initial(stamps), run, watchStartedAtMs);
    InvRun(Initial(stamps), run, watchStartedAtMs);
    CompletionRunPays(s, wind, watchStartedAtMs);
    var t := After(s, wind, watchStartedAtMs);
    if !Settled(t) {
      if t.timerPending {
        assert Enabled(t, TimerFires);
      } else if t.children[t.child].live {
        assert Enabled(t, ChildExits(t.child));
      } else if t.stopping {
        assert Enabled(t, StopResumes);
      } else {
        assert Enabled(t, RestartResumes);
      }
    }
  }
}
