// Which drops of a join handle leave a task the runtime can still reclaim, after every run
// whatsoever.
module TaskHandleDrop {
  import opened TaskLifecycle
  import opened TaskSafety
  import opened TaskCoherence
  import opened TaskLeaks
  import opened TaskReclaim
  import opened TaskCancel

  // The memory is released once and the future was dropped once before.
  predicate Reclaimed(s: Task) {
    s.ledger.freed == 1 && s.ledger.drops == 1
  }

  // Some continuation reclaims the task.
  ghost predicate Reclaimable(s: Task) {
    exists steps | Legal(s, steps) :: Reclaimed(Exec(s, steps))
  }

  // The handle drops after which the runtime reclaims the task: the output is there and was not
  // taken, or the last reference to a closed task that has been polled, or an open task with a
  // runnable or a run in progress.
  predicate GoodDrop(s: Task) {
    var f := s.flags;
    || (f.completed && !f.closed)
    || (f.closed && f.refs == 1 && s.ledger.polls > 0)
    || (!f.completed && !f.closed && !f.needStart && !Quiescent(s))
  }

  lemma GoodDropRetires(s: Task)
    requires Coherent(s) && Enabled(s, HandleDrop) && !DropHandle(s).faults.aborted
    requires Surplus(s) == 0 && GoodDrop(s)
    ensures var t := DropHandle(s);
      Retired(t) && (Reclaimed(t) || (t.ledger.freed == 0 && Surplus(t) == 0 && Holders(t.held) >= 1))
  {
    StepIsCoherent(s, HandleDrop);
    StepIsAccounted(s, HandleDrop);
  }

  // A good drop of a task with no reference too many can be followed to its reclamation.
  lemma {:induction false} GoodDropReclaims(s: Task) returns (steps: seq<Step>)
    requires Coherent(s) && Enabled(s, HandleDrop) && !DropHandle(s).faults.aborted
    requires Surplus(s) == 0 && GoodDrop(s)
    ensures Legal(DropHandle(s), steps) && Reclaimed(Exec(DropHandle(s), steps))
  {
    var t := DropHandle(s);
    GoodDropRetires(s);
    steps := [];
    if t.ledger.freed == 0 {
      steps := Drain(t);
      RetiredRun(t, steps);
    }
  }

  // Released without the future having been dropped: nothing can happen any more.
  lemma ReleasedTooEarly(s: Task, steps: seq<Step>)
    requires Safe(s) && s.ledger.freed == 1 && s.ledger.drops == 0 && Legal(s, steps)
    ensures Exec(s, steps) == s
  {
    if !Over(s, steps) {
      NeverTouchedAfterFree(s, steps[0]);
    }
  }

  // What every other drop leaves behind: a reference nobody holds, memory released with the
  // future undropped, or a closed task whose future nothing will drop.
  lemma BadDropLeaves(s: Task)
    requires CoherentOrLeaking(s) && Enabled(s, HandleDrop) && !DropHandle(s).faults.aborted
    requires Surplus(s) >= 1 || !GoodDrop(s)
    ensures var t := DropHandle(s);
      && Safe(t)
      && (|| (t.ledger.freed == 0 && Surplus(t) >= 1)
          || (t.ledger.freed == 1 && t.ledger.drops == 0)
          || Abandoned(t))
  {
    StepIsAccounted(s, HandleDrop);
    EnabledIsLive(s, HandleDrop);
  }

  lemma {:induction false} BadDropLeaks(s: Task, steps: seq<Step>)
    requires CoherentOrLeaking(s) && Enabled(s, HandleDrop) && !DropHandle(s).faults.aborted
    requires Surplus(s) >= 1 || !GoodDrop(s)
    requires Legal(DropHandle(s), steps)
    ensures !Reclaimed(Exec(DropHandle(s), steps))
  {
    var t := DropHandle(s);
    BadDropLeaves(s);
    if t.ledger.freed == 1 {
      ReleasedTooEarly(t, steps);
    } else if Surplus(t) >= 1 {
      LeftoverIsNeverFreed(t, steps);
    } else {
      AbandonedForever(t, steps);
    }
  }

  // After any run, dropping the handle leaves a task that can still be reclaimed if and only if
  // the handle never cancelled an idle task and the drop is one of the good ones.
  lemma {:induction false} HandleDropExactly(sized: bool, run: seq<Step>)
    requires Legal(Spawned(sized), run)
    requires var s := Exec(Spawned(sized), run); Enabled(s, HandleDrop) && !DropHandle(s).faults.aborted
    ensures var s := Exec(Spawned(sized), run);
      !CancelledIdle(Spawned(sized), run) && GoodDrop(s) <==> Reclaimable(DropHandle(s))
  {
    var s := Exec(Spawned(sized), run);
    HandleSeesLeaks(sized, run);
    EnabledIsLive(s, HandleDrop);
    DropFromCoherent(s);
  }

  lemma {:induction false} DropFromCoherent(s: Task)
    requires CoherentOrLeaking(s) && Enabled(s, HandleDrop) && !DropHandle(s).faults.aborted
    ensures Surplus(s) == 0 && GoodDrop(s) <==> Reclaimable(DropHandle(s))
  {
    var t := DropHandle(s);
    EnabledIsLive(s, HandleDrop);
    if Surplus(s) == 0 && GoodDrop(s) {
      var steps := GoodDropReclaims(s);
      assert Legal(t, steps) && Reclaimed(Exec(t, steps));
    } else {
      forall steps | Legal(t, steps)
        ensures !Reclaimed(Exec(t, steps))
      {
        BadDropLeaks(s, steps);
      }
    }
  }

  // ---------- a future that nothing will drop ----------

  // Closed with the future still in place and nothing left that would drop it.
  ghost predicate Abandoned(s: Task) {
    && Safe(s) && s.flags.closed && !s.flags.completed && !s.flags.needStart
    && !s.held.handle && Quiescent(s) && s.ledger.drops == 0
  }

  lemma {:induction false} AbandonedForever(s: Task, steps: seq<Step>)
    requires Abandoned(s) && Legal(s, steps)
    ensures Abandoned(Exec(s, steps))
    decreases |steps|
  {
    if !Over(s, steps) {
      StepIsAccounted(s, steps[0]);
      AbandonedStep(s, steps[0]);
      AbandonedForever(Next(s, steps[0]), steps[1..]);
    }
  }

  lemma AbandonedStep(s: Task, step: Step)
    requires Abandoned(s) && Enabled(s, step) && Safe(Next(s, step))
    ensures Abandoned(Next(s, step))
  {}
}
