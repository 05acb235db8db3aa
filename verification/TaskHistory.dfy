// What the flags of the word say about the past: after any run, each flag is given by the steps
// that were taken, without reference to the transitions.
module TaskHistory {
  import opened TaskLifecycle
  import opened TaskSafety
  import opened TaskCoherence

  // ---------- which steps change a flag ----------

  // What leaves the task woken: a wake before it completes or is closed, or the cancellation of
  // an idle task.
  predicate Wakes(s: Task, step: Step) {
    || ((step.WakeByRef? || step.WakeByVal?) && !s.flags.completed && !s.flags.closed)
    || (step.Cancel? && LeavesReference(s, step))
  }

  // What uses the wake up: the start of a run, and the end of one that completes or is closed.
  predicate Consumes(s: Task, step: Step) {
    step.Pop? || step.CompleteReady? || (step.PollPending? && s.flags.closed)
  }

  // What closes the task: cancelling before completion, taking the output, and dropping the
  // handle while there is an output or another reference.
  predicate Closes(s: Task, step: Step) {
    || (step.Cancel? && !s.flags.completed)
    || (step.HandlePoll? && s.flags.completed)
    || (step.HandleDrop? && (s.flags.completed || s.flags.refs >= 2))
  }

  // How a step changes the flags.
  ghost predicate Recorded(s: Task, step: Step, t: Task) {
    !t.faults.aborted ==>
      && (t.flags.needStart <==> s.flags.needStart && !step.HandlePoll?)
      && (t.flags.completed <==> s.flags.completed || step.CompleteReady?)
      && (t.flags.closed <==> s.flags.closed || Closes(s, step))
      && (t.flags.scheduled <==> Wakes(s, step) || (s.flags.scheduled && !Consumes(s, step)))
  }

  lemma RecordedHandlePoll(s: Task, w: nat)
    requires CoherentOrLeaking(s) && Enabled(s, HandlePoll(w))
    ensures Recorded(s, HandlePoll(w), PollHandle(s, w))
  {}

  lemma RecordedHandleDrop(s: Task)
    requires CoherentOrLeaking(s) && Enabled(s, HandleDrop)
    ensures Recorded(s, HandleDrop, DropHandle(s))
  {
    EnabledIsLive(s, HandleDrop);
  }

  lemma RecordedCancel(s: Task)
    requires CoherentOrLeaking(s) && Enabled(s, Cancel)
    ensures Recorded(s, Cancel, CancelTask(s))
  {}

  lemma RecordedWake(s: Task)
    requires CoherentOrLeaking(s) && Enabled(s, WakeByRef)
    ensures Recorded(s, WakeByRef, DoWake(s))
  {}

  // Dropping a waker changes no flag.
  lemma RecordedRelease(s: Task)
    requires CoherentOrLeaking(s) && Enabled(s, DropOneWaker)
    ensures Recorded(s, DropOneWaker, ReleaseWaker(s))
  {}

  lemma RecordedPop(s: Task)
    requires CoherentOrLeaking(s) && Enabled(s, Pop)
    ensures Recorded(s, Pop, BeginRun(s))
  {}

  lemma RecordedPending(s: Task)
    requires CoherentOrLeaking(s) && Enabled(s, PollPending)
    ensures Recorded(s, PollPending, Pending(s))
  {}

  lemma RecordedStep(s: Task, step: Step)
    requires CoherentOrLeaking(s) && Enabled(s, step)
    ensures Recorded(s, step, Next(s, step))
  {
    match step
    case HandlePoll(w) => RecordedHandlePoll(s, w);
    case HandleDrop => RecordedHandleDrop(s);
    case Cancel => RecordedCancel(s);
    case WakeByRef => RecordedWake(s);
    case WakeByVal =>
      RecordedWake(s);
      StepIsCoherentOrLeaking(s, WakeByRef);
      WakeKeepsWakers(s);
      if !DoWake(s).faults.aborted {
        RecordedRelease(DoWake(s));
      }
    case DropOneWaker => RecordedRelease(s);
    case Pop => RecordedPop(s);
    case PollPending => RecordedPending(s);
    case Finish =>
    case CompleteReady =>
    case _ =>
  }

  // A run uses up the wake it answers: only a wake that comes later requeues the task.
  lemma RunUsesUpWake(s: Task)
    requires CoherentOrLeaking(s) && Enabled(s, Pop)
    ensures !Next(s, Pop).flags.scheduled
  {
    RecordedPop(s);
  }

  lemma WakeKeepsWakers(s: Task)
    ensures DoWake(s).held.wakers == s.held.wakers
  {}

  // ---------- whole runs ----------

  // The state before step `i` of a run.
  function Before(s: Task, run: seq<Step>, i: nat): Task {
    if i <= |run| && Legal(s, run[..i]) then Exec(s, run[..i]) else s
  }

  // Some step closed the task.
  ghost predicate Shut(s: Task, run: seq<Step>) {
    exists i :: 0 <= i < |run| && Closes(Before(s, run, i), run[i])
  }

  // Some wake has not been used up since.
  ghost predicate Woken(s: Task, run: seq<Step>) {
    exists i :: 0 <= i < |run| && Wakes(Before(s, run, i), run[i]) && Unused(s, run, i + 1)
  }

  ghost predicate Unused(s: Task, run: seq<Step>, from: nat) {
    forall j :: from <= j < |run| ==> !Consumes(Before(s, run, j), run[j])
  }

  ghost predicate Polled(run: seq<Step>) {
    exists i :: 0 <= i < |run| && run[i].HandlePoll?
  }

  ghost predicate Finished(run: seq<Step>) {
    exists i :: 0 <= i < |run| && run[i].CompleteReady?
  }

  // The flags after a run, by its steps alone.
  ghost predicate FlagsTell(s: Task, run: seq<Step>, t: Task) {
    && (t.flags.needStart <==> !Polled(run))
    && (t.flags.completed <==> Finished(run))
    && (t.flags.closed <==> Shut(s, run))
    && (t.flags.scheduled <==> Woken(s, run))
  }

  lemma BeforeLonger(s: Task, run: seq<Step>, last: Step)
    ensures forall i: nat :: i <= |run| ==> Before(s, run + [last], i) == Before(s, run, i)
  {
    forall i: nat | i <= |run|
      ensures Before(s, run + [last], i) == Before(s, run, i)
    {
      assert (run + [last])[..i] == run[..i];
    }
  }

  lemma {:induction false} ShutLonger(s: Task, run: seq<Step>, last: Step)
    ensures Shut(s, run + [last]) <==> Shut(s, run) || Closes(Before(s, run, |run|), last)
  {
    var longer := run + [last];
    BeforeLonger(s, run, last);
    assert forall i :: 0 <= i < |run| ==> longer[i] == run[i];
    assert longer[|run|] == last;
    if Shut(s, run) {
      var i :| 0 <= i < |run| && Closes(Before(s, run, i), run[i]);
      assert Closes(Before(s, longer, i), longer[i]);
    }
  }

  lemma {:induction false} WokenLonger(s: Task, run: seq<Step>, last: Step)
    ensures var before := Before(s, run, |run|);
      Woken(s, run + [last]) <==> Wakes(before, last) || (Woken(s, run) && !Consumes(before, last))
  {
    var longer := run + [last];
    BeforeLonger(s, run, last);
    assert forall i :: 0 <= i < |run| ==> longer[i] == run[i];
    assert longer[|run|] == last;
    if Woken(s, run) && !Consumes(Before(s, run, |run|), last) {
      var i :| 0 <= i < |run| && Wakes(Before(s, run, i), run[i]) && Unused(s, run, i + 1);
      assert Wakes(Before(s, longer, i), longer[i]) && Unused(s, longer, i + 1);
    }
    if Woken(s, longer) && !Wakes(Before(s, run, |run|), last) {
      var i :| 0 <= i < |longer| && Wakes(Before(s, longer, i), longer[i]) && Unused(s, longer, i + 1);
      assert !Consumes(Before(s, longer, |run|), longer[|run|]);
      assert Unused(s, run, i + 1) by {
        forall j | i + 1 <= j < |run|
          ensures !Consumes(Before(s, run, j), run[j])
        {
          assert !Consumes(Before(s, longer, j), longer[j]);
        }
      }
    }
  }

  lemma {:induction false} PolledLonger(run: seq<Step>, last: Step)
    ensures Polled(run + [last]) <==> Polled(run) || last.HandlePoll?
    ensures Finished(run + [last]) <==> Finished(run) || last.CompleteReady?
  {
    var longer := run + [last];
    assert longer[|run|] == last;
    if Polled(run) {
      var i :| 0 <= i < |run| && run[i].HandlePoll?;
      assert longer[i].HandlePoll?;
    }
    if Finished(run) {
      var i :| 0 <= i < |run| && run[i].CompleteReady?;
      assert longer[i].CompleteReady?;
    }
  }

  // After any run, the task still has to be started exactly if its handle was never polled, it is
  // completed exactly if an output was written, closed exactly if a step closed it, and scheduled
  // exactly if a wake has not been used up by the start of a run or by its end.
  lemma {:induction false} FlagsAreHistory(sized: bool, run: seq<Step>)
    requires Legal(Spawned(sized), run) && !Exec(Spawned(sized), run).faults.aborted
    ensures FlagsTell(Spawned(sized), run, Exec(Spawned(sized), run))
    decreases |run|
  {
    var s0 := Spawned(sized);
    if |run| > 0 {
      var init, last := run[..|run| - 1], run[|run| - 1];
      assert run == init + [last];
      ExecAppend(s0, init, [last]);
      var s := Exec(s0, init);
      ExecOne(s, last);
      FlagsAreHistory(sized, init);
      assert Before(s0, init, |init|) == s by {
        assert init[..|init|] == init;
      }
      SpawnedIsCoherent(sized);
      RunIsCoherentOrLeaking(s0, init);
      RecordedStep(s, last);
      FlagsTellNext(s0, init, s, last);
    }
  }

  lemma ExecOne(s: Task, step: Step)
    requires Legal(s, [step]) && !Exec(s, [step]).faults.aborted
    ensures !s.faults.aborted && Enabled(s, step) && Exec(s, [step]) == Next(s, step)
  {
    assert [step][1..] == [];
  }

  lemma {:induction false} FlagsTellNext(s0: Task, init: seq<Step>, s: Task, last: Step)
    requires FlagsTell(s0, init, s) && Before(s0, init, |init|) == s
    requires Enabled(s, last) && Recorded(s, last, Next(s, last)) && !Next(s, last).faults.aborted
    ensures FlagsTell(s0, init + [last], Next(s, last))
  {
    ShutLonger(s0, init, last);
    WokenLonger(s0, init, last);
    PolledLonger(init, last);
  }
}
