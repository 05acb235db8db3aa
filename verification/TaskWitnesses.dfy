// One run from a freshly spawned task for every way in which the code misses what its comments
// promise.  The exact conditions are stated in the modules on coherence, reclaiming, cancelling
// and the handle drop; the runs below show that each failing case is reached.
module TaskWitnesses {
  import opened Options
  import opened TaskLifecycle
  import opened TaskSafety
  import opened TaskCancel

  // Released with the future still in place, so that nothing can drop it any more.
  ghost predicate ReleasedUndropped(t: Task) {
    t.ledger.freed == 1 && t.ledger.drops == 0 && forall step :: !Enabled(t, step)
  }

  // The first run of a task whose handle was polled once.
  lemma {:induction false} FirstPoll(sized: bool) returns (run: seq<Step>, t: Task)
    ensures run == [HandlePoll(0), Pop] && Reaches(Spawned(sized), run, t)
    ensures t.flags.refs == 2 && t.flags.running && !t.flags.closed && !t.flags.completed
    ensures !t.flags.scheduled && !t.flags.needStart
    ensures t.held == Holding(true, 0, Polling, 0) && t.ledger == Ledger(1, 0, 0, 0, 0)
    ensures t.join.awaiter == Some(0)
    ensures !t.faults.assertion && !t.faults.panicked && t.sized == sized
  {
    t := Two(Spawned(sized), HandlePoll(0), Pop);
    run := [HandlePoll(0), Pop];
  }

  // ---------- dropping the handle ----------

  // A future that was never started is not dropped with its handle.
  lemma {:induction false} UnstartedDrop(sized: bool) returns (t: Task)
    ensures Reaches(Spawned(sized), [HandleDrop], t) && ReleasedUndropped(t)
  {
    t := Next(Spawned(sized), HandleDrop);
  }

  // The handle of an idle future is its last reference: one reference too many.
  lemma {:induction false} IdleDropLeaks(sized: bool) returns (run: seq<Step>, t: Task)
    ensures run == [HandlePoll(0), Pop, PollPending, HandleDrop] && Reaches(Spawned(sized), run, t)
    ensures t.flags.refs == 2 && Holders(t.held) == t.held.queued == 1 && !t.flags.closed
    ensures NeverReleased(t)
  {
    var first, s := FirstPoll(sized);
    t := Two(s, PollPending, HandleDrop);
    run := Joined(Spawned(sized), first, s, [PollPending, HandleDrop], t);
    SurplusIsNeverReleased(t);
  }

  // The output was taken while a waker is held: `unreachable!`, and the reference of the handle
  // stays behind.
  lemma {:induction false} TakenOutputDropPanics(sized: bool) returns (run: seq<Step>, t: Task)
    ensures run == [HandlePoll(0), Pop, CloneWaker, PollReady, CompleteReady, Finish, HandlePoll(1), HandleDrop]
    ensures Reaches(Spawned(sized), run, t)
    ensures t.faults.panicked && t.ledger.consumed == 1 && NeverReleased(t)
  {
    var first, s := FirstReady(sized);
    t := Three(s, Finish, HandlePoll(1), HandleDrop);
    run := Joined(Spawned(sized), first, s, [Finish, HandlePoll(1), HandleDrop], t);
    SurplusIsNeverReleased(t);
  }

  lemma {:induction false} FirstReady(sized: bool) returns (run: seq<Step>, t: Task)
    ensures run == [HandlePoll(0), Pop, CloneWaker, PollReady, CompleteReady] && Reaches(Spawned(sized), run, t)
    ensures t.flags.refs == 3 && t.flags.completed && !t.flags.closed && !t.flags.running
    ensures !t.flags.scheduled && !t.flags.needStart
    ensures t.held == Holding(true, 0, Finishing, 1) && t.ledger == Ledger(1, 1, 1, 0, 0)
  {
    var first, s := FirstPoll(sized);
    t := Three(s, CloneWaker, PollReady, CompleteReady);
    run := Joined(Spawned(sized), first, s, [CloneWaker, PollReady, CompleteReady], t);
  }

  // A waker outlives the handle of an idle future: a debug assertion fails, and the waker then
  // releases the memory with the future in place and a waker in the awaiter slot.
  lemma {:induction false} WakerOutlivesHandle(sized: bool) returns (run: seq<Step>, t: Task)
    ensures run == [HandlePoll(0), Pop, CloneWaker, PollPending, HandleDrop, DropOneWaker]
    ensures Reaches(Spawned(sized), run, t)
    ensures t.faults.assertion && ReleasedUndropped(t) && t.join.awaiter == Some(0)
  {
    var first, s := FirstPoll(sized);
    var m := Two(s, CloneWaker, PollPending);
    run := Joined(Spawned(sized), first, s, [CloneWaker, PollPending], m);
    t := Two(m, HandleDrop, DropOneWaker);
    run := Joined(Spawned(sized), run, m, [HandleDrop, DropOneWaker], t);
  }

  // The handle is dropped between its first poll and the first run.
  lemma {:induction false} EarlyDropAsserts(sized: bool) returns (t: Task)
    ensures Reaches(Spawned(sized), [HandlePoll(0), HandleDrop], t) && t.faults.assertion
  {
    t := Two(Spawned(sized), HandlePoll(0), HandleDrop);
  }

  // ---------- cancelling ----------

  // A cancelled unstarted future is not dropped, whether or not the handle is polled first.
  lemma {:induction false} UnstartedCancel(sized: bool) returns (t: Task, u: Task)
    ensures Reaches(Spawned(sized), [Cancel, HandleDrop], t) && ReleasedUndropped(t)
    ensures Reaches(Spawned(sized), [Cancel, HandlePoll(0), HandleDrop], u) && ReleasedUndropped(u)
  {
    t := Two(Spawned(sized), Cancel, HandleDrop);
    u := Three(Spawned(sized), Cancel, HandlePoll(0), HandleDrop);
  }

  // A cancellation between the first poll of the handle and the first run drops the future twice
  // and leaves a reference behind.
  lemma {:induction false} EarlyCancelDropsTwice(sized: bool) returns (run: seq<Step>, t: Task)
    ensures run == [HandlePoll(0), Cancel, Pop, NotifyClosed, Finish, Pop, NotifyClosed, Finish]
    ensures Reaches(Spawned(sized), run, t)
    ensures t.ledger.drops == 2 && NeverReleased(t)
  {
    var s := Two(Spawned(sized), HandlePoll(0), Cancel);
    var m := ClosedRun(s);
    run := Joined(Spawned(sized), [HandlePoll(0), Cancel], s, [Pop, NotifyClosed, Finish], m);
    t := ClosedRun(m);
    run := Joined(Spawned(sized), run, m, [Pop, NotifyClosed, Finish], t);
    SurplusIsNeverReleased(t);
  }

  // The cancellation of an idle future leaves a reference behind.
  lemma {:induction false} IdleCancelLeaks(sized: bool) returns (run: seq<Step>, t: Task)
    ensures run == [HandlePoll(0), Pop, PollPending, Cancel] && Reaches(Spawned(sized), run, t)
    ensures t.flags.refs == 3 && Holders(t.held) == 2 && NeverReleased(t)
  {
    var first, s := FirstPoll(sized);
    t := Two(s, PollPending, Cancel);
    run := Joined(Spawned(sized), first, s, [PollPending, Cancel], t);
    SurplusIsNeverReleased(t);
  }

  // The handle of a cancelled future is polled after the future is gone.
  lemma {:induction false} PollAfterCancelAsserts(sized: bool) returns (run: seq<Step>, t: Task)
    ensures run == [HandlePoll(0), Pop, Cancel, PollPending, NotifyClosed, Finish, HandlePoll(1)]
    ensures Reaches(Spawned(sized), run, t) && t.faults.assertion
  {
    var first, s := FirstPoll(sized);
    var m := Three(s, Cancel, PollPending, NotifyClosed);
    run := Joined(Spawned(sized), first, s, [Cancel, PollPending, NotifyClosed], m);
    t := Two(m, Finish, HandlePoll(1));
    run := Joined(Spawned(sized), run, m, [Finish, HandlePoll(1)], t);
  }

  // The handle of a running future is dropped after cancelling it.
  lemma {:induction false} CancelThenDropPanics(sized: bool) returns (run: seq<Step>, t: Task)
    ensures run == [HandlePoll(0), Pop, Cancel, HandleDrop] && Reaches(Spawned(sized), run, t)
    ensures t.faults.panicked && NeverReleased(t)
  {
    var first, s := FirstPoll(sized);
    t := Two(s, Cancel, HandleDrop);
    run := Joined(Spawned(sized), first, s, [Cancel, HandleDrop], t);
    SurplusIsNeverReleased(t);
  }
}
