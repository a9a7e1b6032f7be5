/** The supervisor's closure variables and the code between its awaits, step by step the protocol's. */
module RestartSupervisorModel {
  import opened Prelude
  import opened RestartProtocol

  class RestartSupervisor {
    const watchStartedAtMs: real
    var stopping: bool
    var restartInFlight: bool
    var restartQueued: bool
    var timerPending: bool
    var stamps: map<string, FileStamp>
    var child: nat
    // the frames suspended on a child's exit, and the history the specification speaks about
    var restartAwaits: Option<nat>
    var stopAwaits: Option<nat>
    var children: seq<Child>
    var edits: nat
    var exited: bool

    ghost function View(): State
      reads this
    {
      State(stopping, restartInFlight, restartQueued, timerPending, stamps, child,
            restartAwaits, stopAwaits, children, edits, exited)
    }

    constructor (watchStartedAtMs: real, snapshot: map<string, FileStamp>)
      ensures View() == Initial(snapshot) && this.watchStartedAtMs == watchStartedAtMs
    {
      this.watchStartedAtMs := watchStartedAtMs;
      stopping, restartInFlight, restartQueued, timerPending := false, false, false, false;
      stamps, child, restartAwaits, stopAwaits := snapshot, 0, None, None;
      children, edits, exited := [Child(0, true)], 0, false;
    }

    method StartChild() returns (started: nat)
      modifies this`children
      ensures started == |old(children)| && children == old(children) + [Child(edits, true)]
    {
      started := |children|;
      children := children + [Child(edits, true)];
    }

    method OnSourceEvent(file: string, watched: bool, current: Option<FileStamp>)
      requires Enabled(View(), SourceEvent(file, watched, current))
      modifies this
      ensures View() == Apply(old(View()), SourceEvent(file, watched, current), watchStartedAtMs)
    {
      if stopping || !watched {
        return;
      }
      var changed := IsSourceChange(Recorded(stamps, file), current, watchStartedAtMs);
      if current.None? {
        stamps := stamps - {file};
      } else {
        stamps := stamps[file := current.value];
      }
      if !changed {
        return;
      }
      edits := edits + 1;
      timerPending := true;
    }

    /** The debounce timer: `restart`, up to its first await. */
    method OnTimer()
      requires Enabled(View(), TimerFires)
      modifies this
      ensures View() == Apply(old(View()), TimerFires, watchStartedAtMs)
    {
      timerPending := false;
      if restartInFlight {
        restartQueued := true;
        return;
      }
      restartInFlight := true;
      restartQueued := false;
      restartAwaits := Some(child);
    }

    method OnChildExit(c: nat)
      requires Enabled(View(), ChildExits(c))
      modifies this
      ensures View() == Apply(old(View()), ChildExits(c), watchStartedAtMs)
    {
      children := children[c := children[c].(live := false)];
    }

    /** The rest of one round of `restart`, and the head of the next when another was asked for. */
    method ResumeRestart()
      requires Enabled(View(), RestartResumes)
      modifies this
      ensures View() == Apply(old(View()), RestartResumes, watchStartedAtMs)
    {
      if !stopping {
        child := StartChild();
      }
      if restartQueued && !stopping {
        restartQueued := false;
        restartAwaits := Some(child);
      } else {
        restartInFlight := false;
        restartAwaits := None;
      }
    }

    /** `stopAll`, up to its await. */
    method StopAll()
      requires Enabled(View(), StopRequested)
      modifies this
      ensures View() == Apply(old(View()), StopRequested, watchStartedAtMs)
    {
      stopping := true;
      timerPending := false;
      stopAwaits := Some(child);
    }

    method ResumeStop()
      requires Enabled(View(), StopResumes)
      modifies this
      ensures View() == Apply(old(View()), StopResumes, watchStartedAtMs)
    {
      exited := true;
    }
  }
}
