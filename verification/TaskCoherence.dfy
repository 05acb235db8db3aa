// How the state word, the queue, the future and the output fit together on every run in which
// the handle is not cancelled between its first poll and the first run of the task, and what
// that has to say about wakeups, joins and debug assertions.
module TaskCoherence {
  import opened Options
  import opened TaskLifecycle
  import opened TaskSafety

  // The runnable that the handle's first poll queued has not been run yet.  Starting a task
  // does not set SCHEDULED, so the word does not show this runnable.
  predicate FirstRunnableQueued(s: Task) {
    s.held.queued > 0 && !s.flags.scheduled && !s.flags.closed
  }

  predicate Quiescent(s: Task) {
    s.held.queued == 0 && s.held.stage == NotRunning
  }

  // At most one runnable, and none during a run; the RUNNING and SCHEDULED flags tell which.
  ghost predicate QueueCoherent(s: Task) {
    var f, h := s.flags, s.held;
    && h.queued <= 1
    && (h.stage != NotRunning ==> h.queued == 0)
    && (f.running <==> h.stage == Polling || h.stage == ReadyDrop)
    && (f.scheduled ==> !f.completed && (h.queued == 1 || f.running))
    && (h.queued == 1 && !f.scheduled ==> h.wakers == 0 && (h.handle ==> s.ledger.polls == 0))
  }

  // The future is dropped at most once, and only when it will not be polled again; the output
  // is written when the task completes and read when the completed task is closed.
  ghost predicate FutureCoherent(s: Task) {
    var f, h, l := s.flags, s.held, s.ledger;
    && l.drops <= 1
    && (h.queued == 1 || h.stage == Polling ==> l.drops == 0 && !f.completed)
    && (h.stage == ReadyDrop || h.stage == ClosedDrop || h.stage == Finishing ==> l.drops == 1)
    && (h.stage == ReadyDrop ==> !f.completed)
    && (h.stage == ClosedDrop ==> f.closed && !f.completed)
    && (h.stage == Finishing ==> f.closed || f.completed)
    && (l.drops == 1 ==> f.completed || f.closed || h.stage == ReadyDrop)
    && (f.completed ==> l.drops == 1)
    && l.produced == (if f.completed then 1 else 0)
    && l.consumed == (if f.completed && f.closed then 1 else 0)
  }

  // A task that has not started is held by its handle alone.
  ghost predicate StartCoherent(s: Task) {
    var f, h, l := s.flags, s.held, s.ledger;
    && (f.needStart ==> Quiescent(s) && h.wakers == 0 && l.polls == 0 && !f.completed && !f.scheduled
                        && ((h.handle && f.refs == 1) || l.freed == 1) && s.join.awaiter.None?)
    && (l.polls == 0 ==> h.wakers == 0 && !f.completed && !f.scheduled && h.stage != Polling && h.stage != ReadyDrop)
    && (l.polls == 0 && !f.needStart && h.handle && !f.closed ==> h.queued == 1)
    && (l.polls == 0 && h.handle && f.closed ==> Quiescent(s) && l.drops == 0)
    && (l.polls > 0 && h.handle && f.closed && Quiescent(s) ==> l.drops == 1)
  }

  // A handle that waits has its waker in the awaiter slot, and what it waits for is still to come.
  ghost predicate JoinCoherent(s: Task) {
    var f, h := s.flags, s.held;
    s.join.waiting.Some? ==>
      && h.handle
      && s.join.awaiter == s.join.waiting
      && !f.needStart && !f.completed
      && (f.closed ==> h.queued == 1 || h.stage == Polling || h.stage == ReadyDrop || h.stage == ClosedDrop)
  }

  ghost predicate Coherent(s: Task) {
    && Safe(s)
    && (!s.faults.aborted ==> QueueCoherent(s) && FutureCoherent(s) && StartCoherent(s) && JoinCoherent(s))
  }

  // The one step left out: it queues a second runnable beside the first.
  predicate QueuesTwice(s: Task, step: Step) {
    step.Cancel? && FirstRunnableQueued(s)
  }

  lemma SpawnedIsCoherent(sized: bool)
    ensures Coherent(Spawned(sized))
  {}

  lemma CoherentHandlePoll(s: Task, w: nat)
    requires Coherent(s) && Enabled(s, HandlePoll(w))
    ensures Coherent(PollHandle(s, w))
  {
    StepIsAccounted(s, HandlePoll(w));
  }

  lemma CoherentHandleDrop(s: Task)
    requires Coherent(s) && Enabled(s, HandleDrop)
    ensures Coherent(DropHandle(s))
  {
    StepIsAccounted(s, HandleDrop);
    if s.flags.completed || s.flags.closed || s.flags.needStart {
      CoherentDropClosed(s);
    } else {
      CoherentDropOpen(s);
    }
  }

  lemma CoherentDropClosed(s: Task)
    requires Coherent(s) && Enabled(s, HandleDrop) && Safe(DropHandle(s))
    requires s.flags.completed || s.flags.closed || s.flags.needStart
    ensures Coherent(DropHandle(s))
  {}

  lemma CoherentDropOpen(s: Task)
    requires Coherent(s) && Enabled(s, HandleDrop) && Safe(DropHandle(s))
    requires !s.flags.completed && !s.flags.closed && !s.flags.needStart
    ensures Coherent(DropHandle(s))
  {}

  lemma CoherentCancel(s: Task)
    requires Coherent(s) && Enabled(s, Cancel) && !FirstRunnableQueued(s)
    ensures Coherent(CancelTask(s))
  {
    StepIsAccounted(s, Cancel);
  }

  lemma CoherentWake(s: Task)
    requires Coherent(s) && Enabled(s, WakeByRef)
    ensures Coherent(DoWake(s)) && DoWake(s).held.wakers == s.held.wakers
  {
    StepIsAccounted(s, WakeByRef);
  }

  lemma CoherentRelease(s: Task)
    requires Coherent(s) && Enabled(s, DropOneWaker)
    ensures Coherent(ReleaseWaker(s))
  {
    StepIsAccounted(s, DropOneWaker);
  }

  lemma CoherentBeginRun(s: Task)
    requires Coherent(s) && Enabled(s, Pop)
    ensures Coherent(BeginRun(s))
  {
    StepIsAccounted(s, Pop);
  }

  lemma CoherentPending(s: Task)
    requires Coherent(s) && Enabled(s, PollPending)
    ensures Coherent(Pending(s))
  {
    StepIsAccounted(s, PollPending);
    if s.flags.scheduled && !s.flags.closed {
      CoherentReschedule(s);
    }
  }

  lemma CoherentReschedule(s: Task)
    requires Coherent(s) && Enabled(s, PollPending) && Safe(Pending(s))
    requires s.flags.scheduled && !s.flags.closed
    ensures Coherent(Pending(s))
  {}

  lemma CoherentCompleted(s: Task)
    requires Coherent(s) && Enabled(s, CompleteReady)
    ensures Coherent(Completed(s))
  {
    StepIsAccounted(s, CompleteReady);
  }

  lemma CoherentFinish(s: Task)
    requires Coherent(s) && Enabled(s, Finish)
    ensures Coherent(DropTask(s))
  {
    StepIsAccounted(s, Finish);
  }

  lemma CoherentOther(s: Task, step: Step)
    requires Coherent(s) && Enabled(s, step) && step in {CloneWaker, PollReady, NotifyClosed}
    ensures Coherent(Next(s, step))
  {
    StepIsAccounted(s, step);
    match step
    case CloneWaker =>
    case PollReady =>
    case NotifyClosed =>
  }

  lemma StepIsCoherent(s: Task, step: Step)
    requires Coherent(s) && Enabled(s, step) && !QueuesTwice(s, step)
    ensures Coherent(Next(s, step))
  {
    match step
    case HandlePoll(w) => CoherentHandlePoll(s, w);
    case HandleDrop => CoherentHandleDrop(s);
    case Cancel => CoherentCancel(s);
    case WakeByRef => CoherentWake(s);
    case WakeByVal =>
      CoherentWake(s);
      if !DoWake(s).faults.aborted {
        CoherentRelease(DoWake(s));
      }
    case DropOneWaker => CoherentRelease(s);
    case Pop => CoherentBeginRun(s);
    case PollPending => CoherentPending(s);
    case CompleteReady => CoherentCompleted(s);
    case Finish => CoherentFinish(s);
    case _ => CoherentOther(s, step);
  }

  // ---------- whole runs ----------

  // A run that never takes the step left out above.
  predicate Admitted(s: Task, steps: seq<Step>)
    requires Legal(s, steps)
    decreases |steps|
  {
    Over(s, steps) || (!QueuesTwice(s, steps[0]) && Admitted(Next(s, steps[0]), steps[1..]))
  }

  lemma {:induction false} RunIsCoherent(s: Task, steps: seq<Step>)
    requires Coherent(s) && Legal(s, steps) && Admitted(s, steps)
    ensures Coherent(Exec(s, steps))
    decreases |steps|
  {
    if !Over(s, steps) {
      StepIsCoherent(s, steps[0]);
      RunIsCoherent(Next(s, steps[0]), steps[1..]);
    }
  }

  // The step left out above counts a reference twice, so that the memory is never released.
  // After any run whatsoever the task is coherent, or closed with such a reference.
  ghost predicate CoherentOrLeaking(s: Task) {
    Coherent(s) || Leaking(s)
  }

  ghost predicate Leaking(s: Task) {
    && Safe(s) && s.ledger.freed == 0 && Surplus(s) >= 1
    && s.flags.closed && !s.flags.needStart && s.ledger.polls == 0
  }

  lemma QueuingTwiceLeaks(s: Task)
    requires Coherent(s) && Enabled(s, Cancel) && FirstRunnableQueued(s)
    ensures CoherentOrLeaking(CancelTask(s))
  {
    StepIsAccounted(s, Cancel);
  }

  lemma LeakingStep(s: Task, step: Step)
    requires Leaking(s) && Enabled(s, step)
    ensures CoherentOrLeaking(Next(s, step))
  {
    StepIsAccounted(s, step);
    ClosedStep(s, step);
    ClosedStaysStarted(s, step);
  }

  lemma ClosedStaysStarted(s: Task, step: Step)
    requires s.flags.closed && !s.flags.needStart && Enabled(s, step)
    ensures !Next(s, step).flags.needStart
  {
    match step
    case HandlePoll(_) =>
    case HandleDrop =>
    case WakeByRef =>
    case WakeByVal => assert DoWake(s).flags == s.flags;
    case _ =>
  }

  lemma StepIsCoherentOrLeaking(s: Task, step: Step)
    requires CoherentOrLeaking(s) && Enabled(s, step)
    ensures CoherentOrLeaking(Next(s, step))
  {
    if !Coherent(s) {
      LeakingStep(s, step);
    } else if QueuesTwice(s, step) {
      QueuingTwiceLeaks(s);
    } else {
      StepIsCoherent(s, step);
    }
  }

  lemma {:induction false} RunIsCoherentOrLeaking(s: Task, steps: seq<Step>)
    requires CoherentOrLeaking(s) && Legal(s, steps)
    ensures CoherentOrLeaking(Exec(s, steps))
    decreases |steps|
  {
    if !Over(s, steps) {
      StepIsCoherentOrLeaking(s, steps[0]);
      RunIsCoherentOrLeaking(Next(s, steps[0]), steps[1..]);
    }
  }

  // Exclusion: at most one runnable, none while the task runs; the future is dropped at most
  // once and never polled afterwards; an output is written at most once and read at most once.
  lemma {:induction false} ExclusionOverRuns(sized: bool, steps: seq<Step>)
    requires Legal(Spawned(sized), steps) && Admitted(Spawned(sized), steps)
    ensures var t := Exec(Spawned(sized), steps);
      !t.faults.aborted ==>
        && t.held.queued <= 1
        && (t.held.stage != NotRunning ==> t.held.queued == 0)
        && t.ledger.drops <= 1
        && (t.held.stage == Polling ==> t.ledger.drops == 0)
        && t.ledger.consumed <= t.ledger.produced <= 1
  {
    SpawnedIsCoherent(sized);
    RunIsCoherent(Spawned(sized), steps);
  }

  // ---------- wakeups ----------

  // A wake of a task that can still make progress leaves it queued, or running with SCHEDULED set.
  lemma WakeIsHonoured(s: Task, step: Step)
    requires Coherent(s) && Enabled(s, step) && (step.WakeByRef? || step.WakeByVal?)
    requires !s.flags.completed && !s.flags.closed
    ensures var t := Next(s, step);
      t.faults.aborted || (t.flags.scheduled && (t.held.queued == 1 || t.flags.running))
  {
    CoherentWake(s);
  }

  // A wake, once accepted, is owed a poll until one begins or the task is closed or completed;
  // while it is owed, the task is queued, or running with SCHEDULED set.
  ghost predicate WakePending(s: Task) {
    Coherent(s) && s.flags.scheduled && (s.held.queued == 1 || s.flags.running)
  }

  predicate PastWake(s: Task, polls: nat) {
    s.faults.aborted || s.ledger.polls > polls || s.flags.closed || s.flags.completed
  }

  lemma WakePendingStep(s: Task, step: Step)
    requires WakePending(s) && Enabled(s, step)
    ensures PastWake(Next(s, step), s.ledger.polls)
            || (WakePending(Next(s, step)) && Next(s, step).ledger.polls == s.ledger.polls)
  {
    StepIsCoherent(s, step);
    match step
    case HandlePoll(_) =>
    case HandleDrop =>
    case Cancel =>
    case WakeByRef =>
    case WakeByVal => assert DoWake(s) == s;
    case DropOneWaker =>
    case Pop =>
    case PollPending =>
    case _ =>
  }

  lemma PastWakeStep(s: Task, step: Step, polls: nat)
    requires PastWake(s, polls) && Enabled(s, step)
    ensures PastWake(Next(s, step), polls)
  {
    match step
    case WakeByVal =>
      PastWakeWake(s, polls);
      if !DoWake(s).faults.aborted {
        PastWakeRelease(DoWake(s), polls);
      }
    case HandlePoll(_) =>
    case HandleDrop =>
    case WakeByRef => PastWakeWake(s, polls);
    case DropOneWaker => PastWakeRelease(s, polls);
    case PollPending => PastWakePending(s, polls);
    case _ =>
  }

  lemma PastWakeWake(s: Task, polls: nat)
    requires PastWake(s, polls)
    ensures PastWake(DoWake(s), polls) && DoWake(s).held.wakers == s.held.wakers
  {}

  lemma PastWakeRelease(s: Task, polls: nat)
    requires PastWake(s, polls) && s.held.wakers >= 1
    ensures PastWake(ReleaseWaker(s), polls)
  {}

  lemma PastWakePending(s: Task, polls: nat)
    requires PastWake(s, polls) && Enabled(s, PollPending)
    ensures PastWake(Pending(s), polls)
  {}

  lemma {:induction false} PastWakeRun(s: Task, steps: seq<Step>, polls: nat)
    requires PastWake(s, polls) && Legal(s, steps)
    ensures PastWake(Exec(s, steps), polls)
    decreases |steps|
  {
    if !Over(s, steps) {
      PastWakeStep(s, steps[0], polls);
      PastWakeRun(Next(s, steps[0]), steps[1..], polls);
    }
  }

  lemma {:induction false} WakePendingRun(s: Task, steps: seq<Step>)
    requires WakePending(s) && Legal(s, steps)
    ensures PastWake(Exec(s, steps), s.ledger.polls) || WakePending(Exec(s, steps))
    decreases |steps|
  {
    if !Over(s, steps) {
      var t := Next(s, steps[0]);
      WakePendingStep(s, steps[0]);
      if PastWake(t, s.ledger.polls) {
        PastWakeRun(t, steps[1..], s.ledger.polls);
      } else {
        WakePendingRun(t, steps[1..]);
      }
    }
  }

  // No wakeup is lost: on every run after a wake of a task that can still make progress, the
  // task has been polled again, is closed or completed, or still has the runnable, or the flag
  // in the current run, that will bring the poll about.
  lemma {:induction false} NoWakeupLost(s: Task, wake: Step, steps: seq<Step>)
    requires Coherent(s) && Enabled(s, wake) && (wake.WakeByRef? || wake.WakeByVal?)
    requires !s.flags.completed && !s.flags.closed && Legal(Next(s, wake), steps)
    ensures var t := Exec(Next(s, wake), steps);
      PastWake(t, s.ledger.polls) || (t.flags.scheduled && (t.held.queued == 1 || t.flags.running))
  {
    var t := Next(s, wake);
    WakeIsHonoured(s, wake);
    StepIsCoherent(s, wake);
    WakeKeepsPolls(s, wake);
    if t.faults.aborted {
      PastWakeRun(t, steps, s.ledger.polls);
    } else {
      WakePendingRun(t, steps);
    }
  }

  lemma WakeKeepsPolls(s: Task, wake: Step)
    requires Enabled(s, wake) && (wake.WakeByRef? || wake.WakeByVal?)
    ensures Next(s, wake).ledger.polls == s.ledger.polls
  {
    assert DoWake(s).ledger == s.ledger;
  }

  // ---------- joining ----------

  // A waiting handle stops waiting only because it acts itself or because its waker is woken.
  lemma WaitingStep(s: Task, step: Step)
    requires Coherent(s) && Enabled(s, step) && s.join.waiting.Some?
    requires !step.HandlePoll? && !step.HandleDrop?
    ensures var t := Next(s, step);
      || t.faults.aborted
      || t.join == s.join
      || (t.join.waiting.None? && t.join.notified == s.join.notified + [s.join.waiting.value])
  {}

  lemma {:induction false} NotificationsGrow(s: Task, steps: seq<Step>)
    requires Legal(s, steps)
    ensures s.join.notified <= Exec(s, steps).join.notified
    decreases |steps|
  {
    if !Over(s, steps) {
      NotificationStep(s, steps[0]);
      NotificationsGrow(Next(s, steps[0]), steps[1..]);
    }
  }

  lemma NotificationStep(s: Task, step: Step)
    requires Enabled(s, step)
    ensures s.join.notified <= Next(s, step).join.notified
  {
    match step
    case HandlePoll(_) =>
    case HandleDrop =>
    case Cancel =>
    case CompleteReady =>
    case NotifyClosed =>
    case _ => JoinUntouched(s, step);
  }

  lemma JoinUntouched(s: Task, step: Step)
    requires Enabled(s, step)
    requires !step.HandlePoll? && !step.HandleDrop? && !step.Cancel? && !step.CompleteReady? && !step.NotifyClosed?
    ensures Next(s, step).join == s.join
  {
    match step
    case WakeByRef => JoinUntouchedByWake(s);
    case WakeByVal =>
      JoinUntouchedByWake(s);
      if !DoWake(s).faults.aborted {
        JoinUntouchedByRelease(DoWake(s));
      }
    case DropOneWaker => JoinUntouchedByRelease(s);
    case Pop =>
    case PollPending =>
    case _ =>
  }

  lemma JoinUntouchedByWake(s: Task)
    ensures DoWake(s).join == s.join && DoWake(s).held.wakers == s.held.wakers
  {}

  lemma JoinUntouchedByRelease(s: Task)
    requires s.held.wakers >= 1
    ensures ReleaseWaker(s).join == s.join
  {}

  // Some notification after the first `n` went to `waker`.
  predicate WokenSince(notified: seq<nat>, n: nat, waker: nat) {
    n <= |notified| && waker in notified[n..]
  }

  // The waker is still stored and what it waits for is still to come.
  ghost predicate StillWaiting(s: Task, waker: nat) {
    Coherent(s) && s.join.waiting == Some(waker)
  }

  lemma {:induction false} WaitingRun(s: Task, steps: seq<Step>, waker: nat)
    requires s.faults.aborted || StillWaiting(s, waker)
    requires Legal(s, steps)
    requires forall i :: 0 <= i < |steps| ==> !steps[i].HandlePoll? && !steps[i].HandleDrop?
    ensures var t := Exec(s, steps);
      t.faults.aborted || StillWaiting(t, waker) || WokenSince(t.join.notified, |s.join.notified|, waker)
    decreases |steps|
  {
    if !Over(s, steps) {
      var t := Next(s, steps[0]);
      WaitingStep(s, steps[0]);
      if t.faults.aborted || t.join == s.join {
        if !QueuesTwice(s, steps[0]) {
          StepIsCoherent(s, steps[0]);
        }
        WaitingRun(t, steps[1..], waker);
      } else {
        NotificationsGrow(t, steps[1..]);
        var n := |s.join.notified|;
        assert t.join.notified[n] == waker;
        assert Exec(t, steps[1..]).join.notified[n] == waker;
      }
    }
  }

  // A join is never forgotten: by the time the task has completed, or has been closed and its
  // future dropped, the waker of the handle's last pending poll has been woken.
  lemma {:induction false} JoinIsNeverForgotten(s: Task, steps: seq<Step>, waker: nat)
    requires Coherent(s) && s.join.waiting == Some(waker) && Legal(s, steps)
    requires forall i :: 0 <= i < |steps| ==> !steps[i].HandlePoll? && !steps[i].HandleDrop?
    ensures var t := Exec(s, steps);
      t.faults.aborted
      || (t.join.waiting == t.join.awaiter == Some(waker) && !t.flags.completed && (t.flags.closed ==> !Quiescent(t)))
      || WokenSince(t.join.notified, |s.join.notified|, waker)
  {
    WaitingRun(s, steps, waker);
  }

  // ---------- debug assertions ----------

  // The steps whose debug assertion fails: dropping the handle of a task that is neither queued
  // visibly nor running while others hold it, and polling the handle of a cancelled task after
  // its future has been dropped.
  predicate FailsAssertion(s: Task, step: Step) {
    var f := s.flags;
    || (step.HandleDrop? && !f.completed && !f.closed && !f.scheduled && !f.running && f.refs >= 2)
    || (step.HandlePoll? && f.closed && !f.completed && !f.needStart && !f.scheduled && !f.running)
  }

  // No other debug assertion in a state transition ever fails.
  lemma AssertionsExactly(s: Task, step: Step)
    requires Coherent(s) && Enabled(s, step)
    ensures Next(s, step).faults.assertion == (s.faults.assertion || FailsAssertion(s, step))
  {
    match step
    case HandlePoll(_) =>
    case HandleDrop =>
    case WakeByVal =>
      CoherentWake(s);
      if !DoWake(s).faults.aborted {
        RunAssertionsHold(DoWake(s), DropOneWaker);
      }
    case _ => RunAssertionsHold(s, step);
  }

  lemma RunAssertionsHold(s: Task, step: Step)
    requires Coherent(s) && Enabled(s, step) && !step.HandlePoll? && !step.HandleDrop? && !step.WakeByVal?
    ensures Next(s, step).faults.assertion == s.faults.assertion
  {
    match step
    case Pop =>
    case PollPending =>
    case DropOneWaker =>
    case Finish =>
    case _ =>
  }
}
