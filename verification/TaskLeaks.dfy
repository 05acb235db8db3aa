// Where references go: after any run whatsoever the stored count is the number of holders plus
// the number of references left behind on the way, and the memory is released exactly when both
// are zero.
module TaskLeaks {
  import opened TaskLifecycle
  import opened TaskSafety
  import opened TaskCoherence

  // How many steps of the run left a reference behind.
  function LeftBehind(s: Task, steps: seq<Step>): nat
    requires Legal(s, steps)
    decreases |steps|
  {
    if Over(s, steps) then 0
    else (if LeavesReference(s, steps[0]) then 1 else 0) + LeftBehind(Next(s, steps[0]), steps[1..])
  }

  // Memory that has not been released is counted by someone, or by nobody but for good.
  ghost predicate Counted(s: Task) {
    CoherentOrLeaking(s) && (s.ledger.freed == 0 && !s.faults.aborted ==> s.flags.refs >= 1)
  }

  lemma CountedStep(s: Task, step: Step)
    requires Counted(s) && Enabled(s, step)
    ensures Counted(Next(s, step))
  {
    StepIsAccounted(s, step);
    if Coherent(s) && !QueuesTwice(s, step) {
      StepIsCoherent(s, step);
      LastReferenceReleases(s, step);
    }
  }

  ghost predicate CountedOrReleased(s: Task) {
    s.ledger.freed == 0 && !s.faults.aborted ==> s.flags.refs >= 1
  }

  // A step of a coherent task that brings the count to zero releases the memory.
  lemma LastReferenceReleases(s: Task, step: Step)
    requires Coherent(s) && Enabled(s, step) && s.flags.refs >= 1 && Accounted(s, step, Next(s, step))
    ensures CountedOrReleased(Next(s, step))
  {
    match step
    case WakeByVal =>
      CoherentWake(s);
      if !DoWake(s).faults.aborted {
        LastWakerReleases(DoWake(s));
      }
    case DropOneWaker => LastWakerReleases(s);
    case HandleDrop => LastHandleReleases(s);
    case Pop =>
    case PollPending =>
    case Finish =>
    case _ =>
  }

  lemma LastWakerReleases(s: Task)
    requires Coherent(s) && Enabled(s, DropOneWaker)
    ensures CountedOrReleased(ReleaseWaker(s))
  {
    EnabledIsLive(s, DropOneWaker);
  }

  lemma LastHandleReleases(s: Task)
    requires Coherent(s) && Enabled(s, HandleDrop)
    ensures CountedOrReleased(DropHandle(s))
  {
    EnabledIsLive(s, HandleDrop);
  }

  lemma {:induction false} CountOverRun(s: Task, steps: seq<Step>)
    requires Counted(s) && s.ledger.freed == 0 && !s.faults.aborted && Legal(s, steps)
    ensures var t := Exec(s, steps);
      Counted(t)
      && (!t.faults.aborted && t.ledger.freed == 0 ==> Surplus(t) == Surplus(s) + LeftBehind(s, steps))
      && (!t.faults.aborted && t.ledger.freed == 1 ==> Surplus(s) == 0 && LeftBehind(s, steps) == 0)
    decreases |steps|
  {
    if !Over(s, steps) {
      var t := Next(s, steps[0]);
      StepIsAccounted(s, steps[0]);
      CountedStep(s, steps[0]);
      if t.ledger.freed == 0 && !t.faults.aborted {
        CountOverRun(t, steps[1..]);
      } else if !t.faults.aborted {
        assert Over(t, steps[1..]) by {
          if |steps| > 1 {
            NeverTouchedAfterFree(t, steps[1]);
          }
        }
      }
    }
  }

  // The exact leak theorem.
  lemma {:induction false} ReleasedExactly(sized: bool, run: seq<Step>)
    requires Legal(Spawned(sized), run) && !Exec(Spawned(sized), run).faults.aborted
    ensures var t, left := Exec(Spawned(sized), run), LeftBehind(Spawned(sized), run);
      && (t.ledger.freed == 0 ==> t.flags.refs == Holders(t.held) + left)
      && (t.ledger.freed == 1 <==> Holders(t.held) == 0 && left == 0)
      && t.ledger.freed <= 1
  {
    SpawnedIsCoherent(sized);
    CountOverRun(Spawned(sized), run);
  }

  // ---------- the handle's share ----------

  // While the handle is there, the count shows what its cancellations left behind.
  lemma {:induction false} HandleSeesLeaks(sized: bool, run: seq<Step>)
    requires Legal(Spawned(sized), run)
    requires var s := Exec(Spawned(sized), run); !s.faults.aborted && s.held.handle
    ensures var s := Exec(Spawned(sized), run);
      CoherentOrLeaking(s) && s.ledger.freed == 0 && (Surplus(s) >= 1 <==> CancelledIdle(Spawned(sized), run))
  {
    SpawnedIsCoherent(sized);
    RunIsCoherentOrLeaking(Spawned(sized), run);
    ReleasedExactly(sized, run);
    OnlyCancelLeaves(Spawned(sized), run);
  }

  // The handle cancelled a task that the word showed as idle.
  predicate CancelledIdle(s: Task, steps: seq<Step>)
    requires Legal(s, steps)
    decreases |steps|
  {
    !Over(s, steps)
    && ((steps[0].Cancel? && LeavesReference(s, steps[0])) || CancelledIdle(Next(s, steps[0]), steps[1..]))
  }

  // As long as the handle is there, only its cancellations of an idle task have left references.
  lemma {:induction false} OnlyCancelLeaves(s: Task, steps: seq<Step>)
    requires Legal(s, steps) && Exec(s, steps).held.handle
    ensures LeftBehind(s, steps) >= 1 <==> CancelledIdle(s, steps)
    decreases |steps|
  {
    if !Over(s, steps) {
      var t := Next(s, steps[0]);
      if !t.held.handle {
        HandleIsGone(t, steps[1..]);
      } else {
        OnlyCancelLeaves(t, steps[1..]);
      }
    }
  }

  lemma {:induction false} HandleIsGone(s: Task, steps: seq<Step>)
    requires Legal(s, steps) && !s.held.handle
    ensures !Exec(s, steps).held.handle
    decreases |steps|
  {
    if !Over(s, steps) {
      HandleStaysGone(s, steps[0]);
      HandleIsGone(Next(s, steps[0]), steps[1..]);
    }
  }

  lemma HandleStaysGone(s: Task, step: Step)
    requires Enabled(s, step) && !s.held.handle
    ensures !Next(s, step).held.handle
  {
    match step
    case WakeByVal =>
      WakeKeepsHandle(s);
      if !DoWake(s).faults.aborted {
        assert !ReleaseWaker(DoWake(s)).held.handle;
      }
    case WakeByRef => WakeKeepsHandle(s);
    case DropOneWaker =>
    case Pop =>
    case PollPending =>
    case Finish =>
    case _ =>
  }

  lemma WakeKeepsHandle(s: Task)
    ensures DoWake(s).held.handle == s.held.handle && DoWake(s).held.wakers == s.held.wakers
  {}
}
