// What holds on every run of a task, whatever the user code does: memory is never released
// while anyone holds the task, and it is released at most once.
module TaskSafety {
  import opened TaskFlags
  import opened TaskLifecycle

  // The stored count covers every holder; released memory has none.
  ghost predicate Safe(s: Task) {
    && s.flags.refs <= REF_COUNT_MAX
    && s.ledger.freed <= 1
    && (s.ledger.freed == 1 ==> Holders(s.held) == 0)
    && (s.ledger.freed == 0 && !s.faults.aborted ==> s.flags.refs >= Holders(s.held))
  }

  // References counted in the word but held by nobody.
  function Surplus(s: Task): int {
    s.flags.refs - Holders(s.held)
  }

  // The three steps that leave a reference behind: cancelling an idle task, dropping the last
  // reference to an idle task through its handle, and a handle drop that panics.
  predicate LeavesReference(s: Task, step: Step) {
    var f := s.flags;
    var idle := !f.completed && !f.closed && !f.scheduled && !f.running && !f.needStart;
    || (step.Cancel? && idle)
    || (step.HandleDrop? && f != INITIAL && f.refs == 1 && !f.completed && !f.closed)
    || (step.HandleDrop? && f.refs >= 2 && f.closed)
  }

  // Whoever takes a step holds the task, so the memory it touches is still there.
  lemma EnabledIsLive(s: Task, step: Step)
    requires Safe(s) && Enabled(s, step)
    ensures s.ledger.freed == 0 && s.flags.refs >= Holders(s.held) >= 1
  {}

  // One step keeps the task safe.  Its surplus changes only in the three listed steps, where it
  // grows by one; memory is released only when nothing is left over.
  ghost predicate Accounted(s: Task, step: Step, t: Task) {
    && Safe(t)
    && (t.faults.aborted || t.ledger.freed == 1 || Surplus(t) == Surplus(s) + (if LeavesReference(s, step) then 1 else 0))
    && (t.ledger.freed == 1 ==> Surplus(s) == 0 && !LeavesReference(s, step))
  }

  lemma AccountedHandlePoll(s: Task, w: nat)
    requires Safe(s) && Enabled(s, HandlePoll(w))
    ensures Accounted(s, HandlePoll(w), PollHandle(s, w))
  {}

  lemma AccountedHandleDrop(s: Task)
    requires Safe(s) && Enabled(s, HandleDrop)
    ensures Accounted(s, HandleDrop, DropHandle(s))
  {
    if s.flags != INITIAL && (s.flags.completed || !s.flags.closed) {
      AccountedDropOpen(s);
    }
  }

  lemma AccountedDropOpen(s: Task)
    requires Safe(s) && Enabled(s, HandleDrop)
    requires s.flags != INITIAL && (s.flags.completed || !s.flags.closed)
    ensures Accounted(s, HandleDrop, DropHandle(s))
  {}

  lemma AccountedCancel(s: Task)
    requires Safe(s) && Enabled(s, Cancel)
    ensures Accounted(s, Cancel, CancelTask(s))
  {}

  lemma AccountedWake(s: Task, step: Step)
    requires Safe(s) && Enabled(s, step) && !step.HandleDrop? && !step.Cancel?
    requires s.ledger.freed == 0
    ensures Accounted(s, step, DoWake(s))
  {}

  lemma AccountedRelease(s: Task, step: Step)
    requires Safe(s) && !s.faults.aborted && !step.HandleDrop? && !step.Cancel?
    requires s.held.wakers >= 1
    ensures Accounted(s, step, ReleaseWaker(s))
  {}

  lemma AccountedDropTask(s: Task, step: Step)
    requires Safe(s) && !s.faults.aborted && !step.HandleDrop? && !step.Cancel?
    requires s.held.stage != NotRunning
    ensures Accounted(s, step, DropTask(s))
  {}

  lemma AccountedPending(s: Task)
    requires Safe(s) && Enabled(s, PollPending)
    ensures Accounted(s, PollPending, Pending(s))
  {
    var t := Check(s.(flags := s.flags.(running := false)), s.flags.running);
    if !s.flags.closed {
      if s.flags.scheduled {
        AccountedReschedule(t);
      } else {
        AccountedDropTask(t, PollPending);
      }
    }
  }

  lemma AccountedReschedule(s: Task)
    requires Safe(s) && !s.faults.aborted && s.held.stage != NotRunning
    ensures Accounted(s, PollPending, if Schedule(s).faults.aborted then Schedule(s) else DropTask(Schedule(s)))
  {}

  lemma AccountedBeginRun(s: Task)
    requires Safe(s) && Enabled(s, Pop)
    ensures Accounted(s, Pop, BeginRun(s))
  {}

  lemma AccountedCompleted(s: Task)
    requires Safe(s) && Enabled(s, CompleteReady)
    ensures Accounted(s, CompleteReady, Completed(s))
  {}

  lemma AccountedClone(s: Task)
    requires Safe(s) && Enabled(s, CloneWaker)
    ensures Accounted(s, CloneWaker, Clone(s))
  {}

  lemma StepIsAccounted(s: Task, step: Step)
    requires Safe(s) && Enabled(s, step)
    ensures Accounted(s, step, Next(s, step))
  {
    match step
    case HandlePoll(w) => AccountedHandlePoll(s, w);
    case HandleDrop => AccountedHandleDrop(s);
    case Cancel => AccountedCancel(s);
    case WakeByRef => AccountedWake(s, step);
    case WakeByVal =>
      AccountedWake(s, step);
      if !DoWake(s).faults.aborted {
        AccountedRelease(DoWake(s), step);
      }
    case DropOneWaker => AccountedRelease(s, step);
    case PollPending => AccountedPending(s);
    case Finish => AccountedDropTask(s, step);
    case Pop => AccountedBeginRun(s);
    case CompleteReady => AccountedCompleted(s);
    case CloneWaker => AccountedClone(s);
    case PollReady =>
    case NotifyClosed =>
  }

  // Memory safety over whole runs, with no restriction on the user code.
  lemma {:induction false} NeverFreedWhileHeld(s: Task, steps: seq<Step>)
    requires Safe(s) && Legal(s, steps)
    ensures Safe(Exec(s, steps))
    decreases |steps|
  {
    if !Over(s, steps) {
      StepIsAccounted(s, steps[0]);
      NeverFreedWhileHeld(Next(s, steps[0]), steps[1..]);
    }
  }

  // Once memory is released no step is left to touch it.
  lemma NeverTouchedAfterFree(s: Task, step: Step)
    requires Safe(s) && s.ledger.freed == 1
    ensures !Enabled(s, step)
  {}

  // A reference that nobody holds keeps the memory for good, whatever follows.
  lemma {:induction false} LeftoverIsNeverFreed(s: Task, steps: seq<Step>)
    requires Safe(s) && s.ledger.freed == 0 && (s.faults.aborted || Surplus(s) >= 1) && Legal(s, steps)
    ensures Exec(s, steps).ledger.freed == 0
    decreases |steps|
  {
    if !Over(s, steps) {
      StepIsAccounted(s, steps[0]);
      LeftoverIsNeverFreed(Next(s, steps[0]), steps[1..]);
    }
  }

  // No continuation releases the memory.
  ghost predicate NeverReleased(t: Task) {
    forall steps | Legal(t, steps) :: Exec(t, steps).ledger.freed == 0
  }

  lemma {:induction false} SurplusIsNeverReleased(t: Task)
    requires Safe(t) && t.ledger.freed == 0 && Surplus(t) >= 1
    ensures NeverReleased(t)
  {
    forall steps | Legal(t, steps)
      ensures Exec(t, steps).ledger.freed == 0
    {
      LeftoverIsNeverFreed(t, steps);
    }
  }

  // No poll begins once the task is closed, and nothing reopens it.
  lemma {:induction false} NoPollAfterClose(s: Task, steps: seq<Step>)
    requires s.flags.closed && Legal(s, steps)
    ensures Exec(s, steps).flags.closed && Exec(s, steps).ledger.polls == s.ledger.polls
    decreases |steps|
  {
    if !Over(s, steps) {
      ClosedStep(s, steps[0]);
      NoPollAfterClose(Next(s, steps[0]), steps[1..]);
    }
  }

  lemma ClosedStep(s: Task, step: Step)
    requires s.flags.closed && Enabled(s, step)
    ensures Next(s, step).flags.closed && Next(s, step).ledger.polls == s.ledger.polls
  {
    match step
    case HandlePoll(_) =>
    case HandleDrop =>
    case WakeByRef =>
    case WakeByVal => assert DoWake(s).flags == s.flags;
    case _ =>
  }
}
