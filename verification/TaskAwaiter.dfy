// What is in the awaiter slot when the memory is released.  Releasing the task does not drop the
// slot, so a waker that is still stored there is lost.
module TaskAwaiter {
  import opened Options
  import opened TaskLifecycle
  import opened TaskSafety
  import opened TaskCoherence

  // A started task has a stored awaiter until it completes or is closed; a stored awaiter is
  // still to be notified, unless the task was abandoned with its future in place.
  ghost predicate AwaiterCoherent(s: Task) {
    var f, h, l, stored := s.flags, s.held, s.ledger, s.join.awaiter.Some?;
    && (stored ==> !f.needStart && !f.completed && (l.drops == 1 ==> h.stage == ReadyDrop || h.stage == ClosedDrop))
    && (stored && l.polls == 0 ==> !Quiescent(s))
    && (!f.needStart && !f.closed && !f.completed ==> stored)
    && (!f.completed && l.drops == 0 && l.polls > 0 && Quiescent(s) ==> stored)
  }

  ghost predicate Noted(s: Task) {
    Coherent(s) && (!s.faults.aborted ==> AwaiterCoherent(s))
  }

  ghost predicate NotedOrLeaking(s: Task) {
    Noted(s) || (Safe(s) && s.ledger.freed == 0 && Surplus(s) >= 1)
  }

  lemma NotedStep(s: Task, step: Step)
    requires Noted(s) && Enabled(s, step) && Coherent(Next(s, step))
    ensures Noted(Next(s, step))
  {
    match step
    case HandlePoll(w) => NotedHandlePoll(s, w);
    case HandleDrop => NotedHandleDrop(s);
    case WakeByRef => NotedWake(s);
    case WakeByVal =>
      NotedWake(s);
      CoherentWake(s);
      if !DoWake(s).faults.aborted {
        NotedRelease(DoWake(s));
      }
    case DropOneWaker => NotedRelease(s);
    case Pop => NotedBeginRun(s);
    case PollPending => NotedPending(s);
    case Cancel =>
    case Finish =>
    case CompleteReady =>
    case _ =>
  }

  lemma NotedHandlePoll(s: Task, w: nat)
    requires Noted(s) && Enabled(s, HandlePoll(w)) && Coherent(PollHandle(s, w))
    ensures Noted(PollHandle(s, w))
  {}

  lemma NotedHandleDrop(s: Task)
    requires Noted(s) && Enabled(s, HandleDrop) && Coherent(DropHandle(s))
    ensures Noted(DropHandle(s))
  {}

  lemma NotedWake(s: Task)
    requires Noted(s) && Enabled(s, WakeByRef)
    ensures Noted(DoWake(s))
  {
    CoherentWake(s);
  }

  lemma NotedRelease(s: Task)
    requires Noted(s) && Enabled(s, DropOneWaker)
    ensures Noted(ReleaseWaker(s))
  {
    CoherentRelease(s);
  }

  lemma NotedBeginRun(s: Task)
    requires Noted(s) && Enabled(s, Pop) && Coherent(BeginRun(s))
    ensures Noted(BeginRun(s))
  {}

  lemma NotedPending(s: Task)
    requires Noted(s) && Enabled(s, PollPending) && Coherent(Pending(s))
    ensures Noted(Pending(s))
  {}

  lemma {:induction false} NotedRun(s: Task, steps: seq<Step>)
    requires NotedOrLeaking(s) && Legal(s, steps)
    ensures NotedOrLeaking(Exec(s, steps))
    decreases |steps|
  {
    if !Over(s, steps) {
      StepIsAccounted(s, steps[0]);
      if Noted(s) && !QueuesTwice(s, steps[0]) {
        StepIsCoherent(s, steps[0]);
        NotedStep(s, steps[0]);
      }
      NotedRun(Next(s, steps[0]), steps[1..]);
    }
  }

  // After any run that released the memory, a waker is lost in the awaiter slot if and only if
  // the future had been polled and was not dropped.
  lemma {:induction false} AwaiterLostExactly(sized: bool, run: seq<Step>)
    requires Legal(Spawned(sized), run)
    requires var t := Exec(Spawned(sized), run); t.ledger.freed == 1 && !t.faults.aborted
    ensures var t := Exec(Spawned(sized), run);
      t.join.awaiter.Some? <==> t.ledger.polls > 0 && t.ledger.drops == 0
  {
    SpawnedIsCoherent(sized);
    NotedRun(Spawned(sized), run);
  }

  // ---------- who is woken, and when ----------

  // A poll of the handle has nothing to wait for: the output is there or was taken, or the task is
  // closed with nothing queued and no poll in progress.
  predicate PollIsReady(s: Task) {
    s.flags.completed || (s.flags.closed && s.held.queued == 0 && s.held.stage != Polling && s.held.stage != ReadyDrop)
  }

  // The awaiter is notified when the output is written, when a closed task's future is gone, when
  // a cancellation takes effect, and when another waker's poll of the handle is ready.
  predicate Notifies(s: Task, step: Step) {
    || step.CompleteReady?
    || step.NotifyClosed?
    || (step.Cancel? && !s.flags.needStart && !s.flags.completed && !s.flags.closed)
    || (step.HandlePoll? && PollIsReady(s) && s.join.awaiter != Some(step.waker))
  }

  function AwaiterAfter(s: Task, step: Step): Option<nat> {
    if step.HandlePoll? then (if PollIsReady(s) then None else Some(step.waker))
    else if Notifies(s, step) then None
    else s.join.awaiter
  }

  // The waker that is owed a wake: that of the last poll of the handle, until it is woken.
  function WaitingAfter(s: Task, step: Step): Option<nat> {
    if step.HandlePoll? then (if PollIsReady(s) then None else Some(step.waker))
    else if step.HandleDrop? || Notifies(s, step) then None
    else s.join.waiting
  }

  // Exactly the stored awaiter is woken, and exactly by the steps that notify; polls of the handle
  // that are pending store theirs.
  ghost predicate AwaiterMoves(s: Task, step: Step, t: Task) {
    && t.join.awaiter == AwaiterAfter(s, step)
    && t.join.waiting == WaitingAfter(s, step)
    && t.join.notified == s.join.notified
         + if Notifies(s, step) && s.join.awaiter.Some? then [s.join.awaiter.value] else []
  }

  lemma NotifiesExactly(s: Task, step: Step)
    requires Coherent(s) && Enabled(s, step) && !Next(s, step).faults.aborted
    ensures AwaiterMoves(s, step, Next(s, step))
  {
    match step
    case HandlePoll(w) => NotifiesOnPoll(s, w);
    case HandleDrop => DropKeepsAwaiter(s);
    case Cancel => NotifiesOnCancel(s);
    case CompleteReady =>
    case NotifyClosed =>
    case _ => JoinUntouched(s, step);
  }

  lemma NotifiesOnPoll(s: Task, w: nat)
    requires Coherent(s) && Enabled(s, HandlePoll(w)) && !PollHandle(s, w).faults.aborted
    ensures AwaiterMoves(s, HandlePoll(w), PollHandle(s, w))
  {}

  lemma NotifiesOnCancel(s: Task)
    requires Coherent(s) && Enabled(s, Cancel) && !CancelTask(s).faults.aborted
    ensures AwaiterMoves(s, Cancel, CancelTask(s))
  {}

  lemma DropKeepsAwaiter(s: Task)
    ensures DropHandle(s).join == s.join.(waiting := None)
  {}

  // A cancellation that takes effect wakes the stored awaiter.
  lemma CancelWakesAwaiter(s: Task)
    requires Coherent(s) && Enabled(s, Cancel) && !CancelTask(s).faults.aborted
    requires !s.flags.needStart && !s.flags.completed && !s.flags.closed
    ensures var t := CancelTask(s);
      && t.join.awaiter == None
      && (s.join.awaiter.Some? ==> t.join.notified == s.join.notified + [s.join.awaiter.value])
  {
    NotifiesExactly(s, Cancel);
  }
}
