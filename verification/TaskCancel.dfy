// What cancelling through the join handle achieves, and when it does not.
module TaskCancel {
  import opened TaskFlags
  import opened TaskLifecycle
  import opened TaskSafety
  import opened TaskCoherence
  import opened TaskLeaks
  import opened TaskReclaim

  // The future is on its way out: whenever no runnable is queued and no run is in progress, it
  // has been dropped exactly once.
  ghost predicate Retired(s: Task) {
    && Coherent(s)
    && (!s.faults.aborted ==>
      && (s.flags.closed || s.flags.completed)
      && (Quiescent(s) ==> s.ledger.drops == 1))
  }

  lemma RetiredStep(s: Task, step: Step)
    requires Retired(s) && Enabled(s, step)
    ensures Retired(Next(s, step)) && Next(s, step).ledger.polls == s.ledger.polls
  {
    StepIsCoherent(s, step);
    match step
    case HandlePoll(_) =>
    case HandleDrop =>
    case Cancel =>
    case WakeByRef =>
    case WakeByVal =>
      assert DoWake(s) == s;
    case DropOneWaker =>
    case Pop =>
    case PollPending =>
    case Finish =>
    case _ =>
  }

  lemma {:induction false} RetiredRun(s: Task, steps: seq<Step>)
    requires Retired(s) && Legal(s, steps)
    ensures Retired(Exec(s, steps)) && Exec(s, steps).ledger.polls == s.ledger.polls
    decreases |steps|
  {
    if !Over(s, steps) {
      RetiredStep(s, steps[0]);
      RetiredRun(Next(s, steps[0]), steps[1..]);
    }
  }

  // After cancelling a task that has been polled before, no further poll begins, at most one
  // runnable exists, and the future has been dropped exactly once whenever none is queued or
  // running, whatever user code does next.
  lemma {:induction false} CancelStopsTask(s: Task, steps: seq<Step>)
    requires Coherent(s) && Enabled(s, Cancel) && s.ledger.polls > 0 && Legal(CancelTask(s), steps)
    ensures var t := Exec(CancelTask(s), steps);
      !t.faults.aborted ==>
        && t.ledger.polls == s.ledger.polls
        && t.held.queued <= 1
        && (Quiescent(t) ==> t.ledger.drops == 1)
  {
    StepIsCoherent(s, Cancel);
    RetiredRun(CancelTask(s), steps);
  }

  // Cancelling and then awaiting waits for the task to stop: a poll of the handle is ready if and
  // only if nothing is queued and no poll is in progress, and the future has been dropped by then,
  // or its destructor is running.
  lemma {:induction false} CancelThenAwait(s: Task, steps: seq<Step>)
    requires Coherent(s) && Enabled(s, Cancel) && s.ledger.polls > 0 && Legal(CancelTask(s), steps)
    requires var t := Exec(CancelTask(s), steps); !t.faults.aborted && t.held.handle
    ensures var t := Exec(CancelTask(s), steps);
      var ready := PollJoinHandle(t.flags).outcome.action.Complete?;
      && (ready <==> t.held.queued == 0 && t.held.stage != Polling && t.held.stage != ReadyDrop)
      && (ready ==> t.ledger.drops == 1)
  {
    StepIsCoherent(s, Cancel);
    RetiredRun(CancelTask(s), steps);
  }

  // In every continuation, the future has been dropped exactly once whenever nothing is queued or running.
  ghost predicate DropsFutureOnce(t: Task) {
    forall steps | Legal(t, steps) :: DroppedIfQuiescent(Exec(t, steps))
  }

  predicate DroppedIfQuiescent(t: Task) {
    !t.faults.aborted && Quiescent(t) ==> t.ledger.drops == 1
  }

  // That a poll has begun is also necessary: cancelling an unstarted task never drops its
  // future, and cancelling between the first poll of the handle and the first run drops it twice.
  lemma {:induction false} CancelDropsOnceExactly(s: Task)
    requires Coherent(s) && Enabled(s, Cancel) && !CancelTask(s).faults.aborted
    ensures s.ledger.polls > 0 <==> DropsFutureOnce(CancelTask(s))
  {
    var t := CancelTask(s);
    if s.ledger.polls > 0 {
      forall steps | Legal(t, steps)
        ensures DroppedIfQuiescent(Exec(t, steps))
      {
        CancelStopsTask(s, steps);
      }
    } else {
      var steps := [];
      if FirstRunnableQueued(s) {
        CancelFirstRunnable(s);
        steps := [Pop, NotifyClosed, Finish, Pop, NotifyClosed, Finish];
      }
      assert Legal(t, steps) && !DroppedIfQuiescent(Exec(t, steps));
    }
  }

  // The two runnables left by such a cancellation each drop the future.
  lemma {:induction false} CancelFirstRunnable(s: Task)
    requires Coherent(s) && Enabled(s, Cancel) && !CancelTask(s).faults.aborted
    requires FirstRunnableQueued(s) && s.ledger.polls == 0
    ensures var t := CancelTask(s);
      var steps := [Pop, NotifyClosed, Finish, Pop, NotifyClosed, Finish];
      && Legal(t, steps) && !Exec(t, steps).faults.aborted
      && Quiescent(Exec(t, steps)) && Exec(t, steps).ledger.drops == 2
  {
    var t := CancelTask(s);
    StepIsAccounted(s, Cancel);
    EnabledIsLive(s, Cancel);
    var once := [Pop, NotifyClosed, Finish];
    var m := ClosedRun(t);
    var u := ClosedRun(m);
    var twice := Joined(t, once, m, once, u);
    assert twice == [Pop, NotifyClosed, Finish, Pop, NotifyClosed, Finish];
  }

  // A run of a closed task drops the future and gives up one reference.
  lemma {:induction false} ClosedRun(s: Task) returns (t: Task)
    requires s.held.queued >= 1 && s.held.stage == NotRunning && s.flags.closed && s.flags.refs >= 2
    requires !s.faults.aborted
    ensures Reaches(s, [Pop, NotifyClosed, Finish], t)
    ensures t.flags == s.flags.(scheduled := false, refs := s.flags.refs - 1)
    ensures t.held == s.held.(queued := s.held.queued - 1)
    ensures t.ledger == s.ledger.(drops := s.ledger.drops + 1)
  {
    t := Three(s, Pop, NotifyClosed, Finish);
  }

  // After any run, cancelling leaves memory that no continuation releases if and only if the word
  // shows an idle task, now or at an earlier cancellation: the reference of the runnable is then
  // counted twice.  Between the first poll of the handle and the first run the word looks idle.
  lemma {:induction false} CancelReleasesExactly(sized: bool, run: seq<Step>)
    requires Legal(Spawned(sized), run)
    requires var s := Exec(Spawned(sized), run); Enabled(s, Cancel) && !CancelTask(s).faults.aborted
    ensures var s := Exec(Spawned(sized), run);
      LeavesReference(s, Cancel) || CancelledIdle(Spawned(sized), run) <==> NeverReleased(CancelTask(s))
  {
    HandleSeesLeaks(sized, run);
    CancelFromCoherent(Exec(Spawned(sized), run));
  }

  lemma {:induction false} CancelFromCoherent(s: Task)
    requires CoherentOrLeaking(s) && Enabled(s, Cancel) && !CancelTask(s).faults.aborted
    ensures LeavesReference(s, Cancel) || Surplus(s) >= 1 <==> NeverReleased(CancelTask(s))
  {
    var t := CancelTask(s);
    StepIsAccounted(s, Cancel);
    EnabledIsLive(s, Cancel);
    if LeavesReference(s, Cancel) || Surplus(s) >= 1 {
      SurplusIsNeverReleased(t);
    } else {
      StepIsCoherent(s, Cancel);
      var steps := Drain(t);
      assert Legal(t, steps) && Exec(t, steps).ledger.freed == 1;
    }
  }
}
