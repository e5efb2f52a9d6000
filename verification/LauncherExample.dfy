/** A concrete run in which an output thread that the launcher has left behind still changes the snapshot. */
module LauncherExample {
  import opened Common
  import opened Launcher
  import opened LauncherInvariant
  import opened LauncherSafety

  ghost predicate Reachable(s: State) {
    exists states, steps :: IsRun(states, steps) && states[|states| - 1] == s
  }

  lemma Step(s: State, step: Step, t: State)
    requires Reachable(s) && Enabled(s, step) && t == Do(s, step)
    ensures Reachable(t)
  {
    var states, steps :| IsRun(states, steps) && states[|states| - 1] == s;
    var states', steps' := states + [t], steps + [step];
    forall k | 0 <= k < |steps'| ensures Follows(states', steps', k) {
      if k < |steps| {
        assert Follows(states, steps, k);
      }
    }
    assert IsRun(states', steps');
  }

  lemma StepStart(s: State, at: StartPoint, choice: Choice)
    requires Reachable(s) && s.lock.Held? && s.lock.at == Start(at) && CanAdvance(s)
    ensures Reachable(AdvanceStart(s, at, choice))
  {
    Step(s, Proceeds(choice), AdvanceStart(s, at, choice));
  }

  lemma StepStop(s: State, at: StopPoint)
    requires Reachable(s) && s.lock.Held? && s.lock.at == Stop(at) && CanAdvance(s)
    ensures Reachable(AdvanceStop(s, at))
  {
    Step(s, Proceeds(Proceed), AdvanceStop(s, at));
  }

  // The state after `start_launcher_locked` has begun, spawned and shown a child.
  function Begun(s: State): State
    requires s.lock.Held?
  {
    s.(lock := Held(s.lock.caller, Start(Spawn)), generation := s.generation + 1, intentionalStop := false,
       snapshot := s.snapshot.(phase := Starting, openSignalPid := None))
  }

  function Filled(s: State, pid: Pid): State
    requires s.lock.Held?
  {
    s.(lock := Held(s.lock.caller, Returned(true)), child := Some(pid), snapshot := s.snapshot.(childPid := Some(pid)),
       leaders := s.leaders + [Leader(pid, s.generation, true, Waiting, false, false)])
  }

  lemma RunBegin(s: State)
    requires Reachable(s) && CanAdvance(s) && s.lock.at == Start(Check) && s.child.None?
    ensures Reachable(Begun(s))
  {
    StepStart(s, Check, Proceed);
    RunPrepare(Go(s, Start(Prepare)));
  }

  lemma RunPrepare(s: State)
    requires Reachable(s) && CanAdvance(s) && s.lock.at == Start(Prepare)
    ensures Reachable(Begun(s))
  {
    StepStart(s, Prepare, Proceed);
    RunAdvance(Go(s, Start(Advance)));
  }

  lemma RunAdvance(s: State)
    requires Reachable(s) && CanAdvance(s) && s.lock.at == Start(Advance)
    ensures Reachable(Begun(s))
  {
    StepStart(s, Advance, Proceed);
    RunUnflag(AdvanceStart(s, Advance, Proceed));
  }

  lemma RunUnflag(s: State)
    requires Reachable(s) && CanAdvance(s) && s.lock.at == Start(Unflag)
    ensures Reachable(Begun(s).(generation := s.generation))
  {
    StepStart(s, Unflag, Proceed);
    StepStart(AdvanceStart(s, Unflag, Proceed), Announce, Proceed);
  }

  lemma RunFill(s: State, pid: Pid)
    requires Reachable(s) && CanAdvance(s) && s.lock.at == Start(Spawn)
    ensures Reachable(Filled(s, pid))
  {
    var l := Leader(pid, s.generation, true, NotSpawned, false, false);
    StepStart(s, Spawn, Spawned(pid));
    var a := s.(lock := Held(s.lock.caller, Start(Record)), leaders := s.leaders + [l]);
    assert a == AdvanceStart(s, Spawn, Spawned(pid));
    RunRecord(a);
    LastReplaced(s.leaders, l, Waiting);
    assert Watched(a) == Filled(s, pid);
  }

  lemma RunRecord(s: State)
    requires Reachable(s) && CanAdvance(s) && s.lock.at == Start(Record)
    ensures Reachable(Watched(s))
  {
    StepStart(s, Record, Proceed);
    RunShow(Go(s, Start(Fill)));
  }

  lemma LastReplaced(leaders: seq<Leader>, l: Leader, w: Watcher)
    ensures (leaders + [l])[|leaders| := l.(watcher := w)] == leaders + [l.(watcher := w)]
  {
  }

  // The last leader is in the slot, shown and watched.
  function Watched(s: State): State
    requires s.lock.Held? && s.leaders != []
  {
    var last := |s.leaders| - 1;
    s.(lock := Held(s.lock.caller, Returned(true)), child := Some(s.leaders[last].pid),
       snapshot := s.snapshot.(childPid := Some(s.leaders[last].pid)),
       leaders := s.leaders[last := s.leaders[last].(watcher := Waiting)])
  }

  lemma RunShow(s: State)
    requires Reachable(s) && CanAdvance(s) && s.lock.at == Start(Fill)
    ensures Reachable(Watched(s))
  {
    StepStart(s, Fill, Proceed);
    var a := s.(lock := Held(s.lock.caller, Start(Show)), child := Some(s.leaders[|s.leaders| - 1].pid));
    assert a == AdvanceStart(s, Fill, Proceed);
    RunWatch(a);
  }

  lemma RunWatch(s: State)
    requires Reachable(s) && CanAdvance(s) && s.lock.at == Start(Show)
    requires s.child == Some(s.leaders[|s.leaders| - 1].pid)
    ensures Reachable(Watched(s))
  {
    StepStart(s, Show, Proceed);
    var a := s.(lock := Held(s.lock.caller, Start(Watch)),
                snapshot := s.snapshot.(childPid := Some(s.leaders[|s.leaders| - 1].pid)));
    assert a == AdvanceStart(s, Show, Proceed);
    StepStart(a, Watch, Proceed);
    WatchDoes(a, Proceed);
  }

  lemma RunStop(s: State)
    requires Reachable(s) && CanAdvance(s) && s.lock.at == Stop(Bump) && s.lock.caller.RestartCall? && s.child.Some?
    ensures Reachable(s.(lock := Held(RestartCall, Start(Check)), child := None, generation := s.generation + 1,
                         intentionalStop := true, leaders := Killed(s.leaders, s.child.value),
                         snapshot := s.snapshot.(phase := Stopped, childPid := None, openSignalPid := None)))
  {
    StepStop(s, Bump);
    var a := AdvanceStop(s, Bump);
    StepStop(a, Flag);
    var b := AdvanceStop(a, Flag);
    StepStop(b, Empty);
    StepStop(AdvanceStop(b, Empty), Note);
  }

  function Shown(phase: Phase, pid: Option<Pid>, signal: Option<Pid>, pending: bool): Snapshot {
    Snapshot(phase, pid, signal, pending)
  }

  function At(lock: Lock, child: Option<Pid>, generation: nat, snapshot: Snapshot, leaders: seq<Leader>,
        openers: nat): State {
    State(lock, child, generation, false, false, false, snapshot, leaders, [], openers, multiset{}, 0, false, false)
  }

  const FIRST := Leader(7, 1, true, Waiting, false, false)
  const SECOND := Leader(8, 3, true, Waiting, false, false)

  /** The app starts its first child. */
  lemma RunFirstStart()
    ensures Reachable(At(Free, Some(7), 1, Shown(Starting, Some(7), None, false), [FIRST], 0))
  {
    assert IsRun([INITIAL], []);
    assert [INITIAL][0] == INITIAL;
    assert Reachable(INITIAL);
    var a := INITIAL.(lock := Held(StartCall, Entered));
    Step(INITIAL, Acquire(StartCall), a);
    var b := INITIAL.(lock := Held(StartCall, Start(Check)));
    Step(a, Proceeds(Proceed), b);
    RunBegin(b);
    RunFill(Begun(b), 7);
    RunReturn(Filled(Begun(b), 7));
    assert Filled(Begun(b), 7).leaders == [FIRST];
  }

  // A start or restart that has returned gives the lock back.
  lemma RunReturn(s: State)
    requires Reachable(s) && s.lock.Held? && s.lock.at == Returned(true)
    requires s.lock.caller.StartCall? || s.lock.caller.RestartCall?
    requires !s.intentionalStop
    ensures Reachable(s.(lock := Free))
  {
    var a := Go(s, Releasing(true));
    Step(s, Proceeds(Proceed), a);
    Step(a, Proceeds(Proceed), s.(lock := Free));
  }

  /** Its output thread reports readiness but has not sent its signal yet when the user asks for the panel and
      restarts. */
  lemma RunRestart()
    ensures Reachable(At(Held(RestartCall, Stop(Bump)), Some(7), 1, Shown(Starting, Some(7), Some(7), true),
                         [FIRST.(signalling := true)], 1))
  {
    RunFirstStart();
    var a := At(Free, Some(7), 1, Shown(Starting, Some(7), None, false), [FIRST], 0);
    var b := At(Free, Some(7), 1, Shown(Starting, Some(7), Some(7), false), [FIRST.(signalling := true)], 0);
    Step(a, Output(0, SignalReady), b);
    var c := At(Free, Some(7), 1, Shown(Starting, Some(7), Some(7), true), [FIRST.(signalling := true)], 1);
    Step(b, OpenRequest, c);
    RunEnterRestart(c);
  }

  lemma RunEnterRestart(s: State)
    requires Reachable(s) && s.lock.Free? && !s.intentionalStop && !s.updateInProgress
    ensures Reachable(s.(lock := Held(RestartCall, Stop(Bump))))
  {
    var a := s.(lock := Held(RestartCall, Entered));
    Step(s, Acquire(RestartCall), a);
    Step(a, Proceeds(Proceed), s.(lock := Held(RestartCall, Stop(Bump))));
  }

  /** The restart replaces the child. */
  lemma RunSecondStart()
    ensures Reachable(At(Free, Some(8), 3, Shown(Starting, Some(8), None, true),
                         [FIRST.(signalling := true, alive := false), SECOND], 1))
  {
    RunRestart();
    var a := At(Held(RestartCall, Stop(Bump)), Some(7), 1, Shown(Starting, Some(7), Some(7), true),
                [FIRST.(signalling := true)], 1);
    RunStop(a);
    assert Killed(a.leaders, 7) == [FIRST.(signalling := true, alive := false)];
    var b := At(Held(RestartCall, Start(Check)), None, 2, Shown(Stopped, None, None, true),
                [FIRST.(signalling := true, alive := false)], 1).(intentionalStop := true);
    RunBegin(b);
    RunFill(Begun(b), 8);
    RunReturn(Filled(Begun(b), 8));
    assert Filled(Begun(b), 8).leaders == [FIRST.(signalling := true, alive := false), SECOND];
  }

  /** The exception in `OldOutputChangesSnapshot` is real: the new child has reported readiness and has just exited, and
      the failing signal of the old child's output thread unnames it although its own generation is long past. */
  lemma OldSignalUnnamesNewChild() returns (s: State, step: Step)
    ensures Reachable(s) && Enabled(s, step) && OldOutput(s, step)
    ensures s.snapshot.childPid == Some(8) && s.snapshot.openSignalPid == Some(8) && s.child == Some(8)
    ensures Do(s, step).snapshot == s.snapshot.(openSignalPid := None)
  {
    RunSecondStart();
    var old' := FIRST.(signalling := true, alive := false);
    var a := At(Free, Some(8), 3, Shown(Starting, Some(8), None, true), [old', SECOND], 1);
    var b := At(Free, Some(8), 3, Shown(Starting, Some(8), Some(8), true), [old', SECOND.(signalling := true)], 1);
    Step(a, Output(1, SignalReady), b);
    var c := b.(leaders := [old', SECOND.(signalling := true, alive := false)]);
    Step(b, Die(1), c);
    s := c.(leaders := [old', SECOND.(signalling := true, alive := false, watcher := Reaped)]);
    Step(c, Reap(1), s);
    step := OutputSignal(0, false);
  }
}
