// When a task is reclaimed: with no cancellation, and with the handle dropped only where the
// runtime can finish the task on its own, the memory is released exactly when the last holder
// goes, with the future dropped once and the output consumed once.
module TaskReclaim {
  import opened TaskFlags
  import opened TaskLifecycle
  import opened TaskSafety
  import opened TaskCoherence
  import opened TaskAwaiter

  // The handle drops that leave a task the runtime can finish: an unstarted task, a completed
  // task whose output was not taken, the last reference to a closed task, and an open task with
  // a runnable or a run in progress.
  predicate CleanDrop(s: Task) {
    var f := s.flags;
    || f == INITIAL
    || (f.completed && !f.closed)
    || (f.closed && f.refs == 1)
    || (!f.completed && !f.closed && !f.needStart && !Quiescent(s))
  }

  predicate CleanStep(s: Task, step: Step) {
    !step.Cancel? && (step.HandleDrop? ==> CleanDrop(s))
  }

  // The stored count is exactly the number of holders, an open task has its handle, and a task
  // that is closed before it completes has its future dropped.  Closing an unstarted task takes
  // a cancellation.
  ghost predicate Clean(s: Task) {
    var f, h, l := s.flags, s.held, s.ledger;
    && Coherent(s)
    && (!s.faults.aborted ==>
      && !s.faults.panicked
      && (l.freed == 0 ==> f.refs == Holders(h))
      && (l.freed == 1 <==> Holders(h) == 0)
      && (!h.handle && l.freed == 0 ==> f.closed)
      && (h.handle && f.closed ==> f.completed)
      && (f.needStart ==> !f.closed)
      && (f.closed && !f.completed && Quiescent(s) ==> l.drops == 1)
      && (l.freed == 1 ==> f.needStart || (l.drops == 1 && l.consumed == l.produced)))
  }

  lemma SpawnedIsClean(sized: bool)
    ensures Clean(Spawned(sized))
  {}

  lemma CleanHandleDrop(s: Task)
    requires Clean(s) && Enabled(s, HandleDrop) && CleanDrop(s)
    requires Coherent(DropHandle(s)) && Accounted(s, HandleDrop, DropHandle(s))
    ensures Clean(DropHandle(s))
  {}

  lemma CleanHandlePoll(s: Task, w: nat)
    requires Clean(s) && Enabled(s, HandlePoll(w))
    requires Coherent(PollHandle(s, w)) && Accounted(s, HandlePoll(w), PollHandle(s, w))
    ensures Clean(PollHandle(s, w))
  {}

  lemma CleanWake(s: Task)
    requires Clean(s) && Enabled(s, WakeByRef)
    ensures Clean(DoWake(s))
  {
    CoherentWake(s);
    StepIsAccounted(s, WakeByRef);
  }

  lemma CleanRelease(s: Task)
    requires Clean(s) && Enabled(s, DropOneWaker)
    ensures Clean(ReleaseWaker(s))
  {
    CoherentRelease(s);
    StepIsAccounted(s, DropOneWaker);
  }

  lemma CleanRun(s: Task, step: Step)
    requires Clean(s) && Enabled(s, step) && step in {Pop, PollPending, Finish}
    requires Coherent(Next(s, step)) && Accounted(s, step, Next(s, step))
    ensures Clean(Next(s, step))
  {
    match step
    case Pop =>
    case PollPending =>
    case Finish =>
  }

  lemma CleanOther(s: Task, step: Step)
    requires Clean(s) && Enabled(s, step) && step in {CloneWaker, PollReady, CompleteReady, NotifyClosed}
    requires Coherent(Next(s, step)) && Accounted(s, step, Next(s, step))
    ensures Clean(Next(s, step))
  {
    match step
    case CloneWaker =>
    case PollReady =>
    case CompleteReady =>
    case NotifyClosed =>
  }

  lemma StepIsClean(s: Task, step: Step)
    requires Clean(s) && Enabled(s, step) && CleanStep(s, step)
    ensures Clean(Next(s, step))
  {
    StepIsCoherent(s, step);
    StepIsAccounted(s, step);
    match step
    case HandlePoll(w) => CleanHandlePoll(s, w);
    case HandleDrop => CleanHandleDrop(s);
    case WakeByRef => CleanWake(s);
    case WakeByVal =>
      CleanWake(s);
      if !DoWake(s).faults.aborted {
        CoherentWake(s);
        CleanRelease(DoWake(s));
      }
    case DropOneWaker => CleanRelease(s);
    case Pop => CleanRun(s, step);
    case PollPending => CleanRun(s, step);
    case Finish => CleanRun(s, step);
    case _ => CleanOther(s, step);
  }

  // ---------- whole runs ----------

  predicate CleanRunOf(s: Task, steps: seq<Step>)
    requires Legal(s, steps)
    decreases |steps|
  {
    Over(s, steps) || (CleanStep(s, steps[0]) && CleanRunOf(Next(s, steps[0]), steps[1..]))
  }

  lemma {:induction false} RunIsClean(s: Task, steps: seq<Step>)
    requires Clean(s) && Legal(s, steps) && CleanRunOf(s, steps)
    ensures Clean(Exec(s, steps))
    decreases |steps|
  {
    if !Over(s, steps) {
      StepIsClean(s, steps[0]);
      RunIsClean(Next(s, steps[0]), steps[1..]);
    }
  }

  // The stored count is the number of holders after every step, so the task is released exactly
  // when the last holder goes.  Then the future has been dropped exactly once if the task was
  // started and not at all if it was not, an output that was produced has been consumed, and no
  // waker is left in the awaiter slot.
  lemma {:induction false} CountedAndReclaimed(sized: bool, steps: seq<Step>)
    requires Legal(Spawned(sized), steps) && CleanRunOf(Spawned(sized), steps)
    ensures var t := Exec(Spawned(sized), steps);
      !t.faults.aborted ==>
        && !t.faults.panicked
        && (t.ledger.freed == 0 ==> t.flags.refs == Holders(t.held) >= 1)
        && (t.ledger.freed == 1 <==> Holders(t.held) == 0)
        && (t.ledger.freed == 1 ==>
          && t.ledger.drops == (if t.flags.needStart then 0 else 1)
          && t.ledger.consumed == t.ledger.produced
          && t.join.awaiter.None?)
  {
    SpawnedIsClean(sized);
    RunIsClean(Spawned(sized), steps);
    var t := Exec(Spawned(sized), steps);
    if t.ledger.freed == 1 && !t.faults.aborted {
      AwaiterLostExactly(sized, steps);
    }
  }

  // The last waker never finds a task that is neither completed nor closed, so a waker drop
  // never has to schedule the task itself.
  lemma LastWakerFindsTaskClosed(s: Task)
    requires Clean(s) && Enabled(s, DropOneWaker) && s.flags.refs == 1
    ensures s.flags.closed && ReleaseWaker(s).ledger.freed == 1
  {
    EnabledIsLive(s, DropOneWaker);
  }

  // On clean runs a debug assertion fails in one case only: the handle is dropped between its
  // first poll and the first run, when the word shows neither SCHEDULED nor RUNNING.
  lemma {:induction false} CleanAssertions(s: Task, step: Step)
    requires Clean(s) && Enabled(s, step) && CleanStep(s, step)
    ensures Next(s, step).faults.assertion
        == (s.faults.assertion || (step.HandleDrop? && FirstRunnableQueued(s)))
  {
    AssertionsExactly(s, step);
    EnabledIsLive(s, step);
  }

  // On orderly runs (no cancellation, the handle dropped only when unstarted, when SCHEDULED or
  // RUNNING is set, with the output unread, or as the last reference to a closed task) no debug
  // assertion fails and `unreachable!` is not reached.
  predicate OrderlyRunOf(s: Task, steps: seq<Step>)
    requires Legal(s, steps)
    decreases |steps|
  {
    Over(s, steps)
    || (CleanStep(s, steps[0]) && !(steps[0].HandleDrop? && FirstRunnableQueued(s))
        && OrderlyRunOf(Next(s, steps[0]), steps[1..]))
  }

  lemma {:induction false} OrderlyRunHasNoFault(sized: bool, steps: seq<Step>)
    requires Legal(Spawned(sized), steps) && OrderlyRunOf(Spawned(sized), steps)
    ensures var t := Exec(Spawned(sized), steps); !t.faults.assertion && (t.faults.aborted || !t.faults.panicked)
  {
    SpawnedIsClean(sized);
    OrderlyRunFrom(Spawned(sized), steps);
  }

  lemma {:induction false} OrderlyRunFrom(s: Task, steps: seq<Step>)
    requires Clean(s) && !s.faults.assertion && Legal(s, steps) && OrderlyRunOf(s, steps)
    ensures var t := Exec(s, steps); !t.faults.assertion && (t.faults.aborted || !t.faults.panicked)
    decreases |steps|
  {
    if !Over(s, steps) {
      CleanAssertions(s, steps[0]);
      StepIsClean(s, steps[0]);
      OrderlyRunFrom(Next(s, steps[0]), steps[1..]);
    }
  }

  // ---------- draining ----------

  // A closed or completed task whose references are all accounted for can always be released:
  // let the run end, run what is queued, drop the wakers, and drop the handle last.
  lemma {:induction false} Drain(s: Task) returns (steps: seq<Step>)
    requires Coherent(s) && !s.faults.aborted && s.ledger.freed == 0
    requires Surplus(s) == 0 && Holders(s.held) >= 1 && (s.flags.closed || s.flags.completed)
    ensures Legal(s, steps) && Exec(s, steps).ledger.freed == 1 && !Exec(s, steps).faults.aborted
    decreases s.held.queued, DrainRank(s.held.stage), s.held.wakers
  {
    var step := DrainStep(s);
    var t := Next(s, step);
    DrainProgress(s);
    StepIsCoherent(s, step);
    var rest := [];
    if t.ledger.freed == 0 {
      rest := Drain(t);
    }
    steps := [step] + rest;
    ExecFirst(s, step, rest);
  }

  function DrainRank(stage: Stage): nat {
    match stage
    case NotRunning => 0
    case Finishing => 1
    case ClosedDrop => 2
    case ReadyDrop => 3
    case Polling => 4
  }

  function DrainStep(s: Task): Step {
    if s.held.queued > 0 && s.held.stage == NotRunning then Pop
    else if s.held.stage == Polling then PollPending
    else if s.held.stage == ReadyDrop then CompleteReady
    else if s.held.stage == ClosedDrop then NotifyClosed
    else if s.held.stage == Finishing then Finish
    else if s.held.wakers > 0 then DropOneWaker
    else HandleDrop
  }

  lemma DrainProgress(s: Task)
    requires Coherent(s) && !s.faults.aborted && s.ledger.freed == 0
    requires Surplus(s) == 0 && Holders(s.held) >= 1 && (s.flags.closed || s.flags.completed)
    ensures var step := DrainStep(s);
      && Enabled(s, step)
      && var t := Next(s, step);
      && !t.faults.aborted
      && (t.flags.closed || t.flags.completed)
      && (t.ledger.freed == 1 || (t.ledger.freed == 0 && Surplus(t) == 0 && Holders(t.held) >= 1))
      && (t.ledger.freed == 1
          || t.held.queued < s.held.queued
          || (t.held.queued == s.held.queued && DrainRank(t.held.stage) < DrainRank(s.held.stage))
          || (t.held.queued == s.held.queued && t.held.stage == s.held.stage && t.held.wakers < s.held.wakers))
  {
    StepIsAccounted(s, DrainStep(s));
    match DrainStep(s)
    case Pop =>
    case PollPending =>
    case CompleteReady =>
    case NotifyClosed =>
    case Finish =>
    case DropOneWaker =>
    case HandleDrop =>
  }
}
