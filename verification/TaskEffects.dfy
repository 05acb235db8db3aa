// Everything a step changes besides the flags, quantity by quantity: who holds the task, what has
// happened to the future and the output, and which steps panic or abort.
module TaskEffects {
  import opened TaskFlags
  import opened TaskLifecycle
  import opened TaskSafety
  import opened TaskCoherence
  import opened TaskHistory

  // Every step is taken by user code or by a run; who holds the task may take it, and during the
  // poll its waker may be cloned and woken by reference.
  lemma WhoMayAct(s: Task, step: Step)
    requires !s.faults.aborted
    ensures s.held.handle <==> Enabled(s, HandleDrop) && Enabled(s, Cancel) && forall w :: Enabled(s, HandlePoll(w))
    ensures s.held.wakers > 0 <==> Enabled(s, WakeByVal) && Enabled(s, DropOneWaker)
    ensures s.held.wakers > 0 || s.held.stage == Polling <==> Enabled(s, CloneWaker) && Enabled(s, WakeByRef)
    ensures s.held.queued > 0 && s.held.stage == NotRunning <==> Enabled(s, Pop)
    ensures !ByUser(step) && !step.Pop? && Enabled(s, step) ==> s.held.stage != NotRunning
    ensures s.held.stage != NotRunning ==> exists run :: !ByUser(run) && Enabled(s, run)
    ensures s.held.stage == Polling ==> Enabled(s, PollReady) && Enabled(s, PollPending)
    ensures ByUser(step) <==>
            !(step.Pop? || step.PollReady? || step.PollPending? || step.CompleteReady? || step.NotifyClosed? || step.Finish?)
  {
    match s.held.stage
    case NotRunning =>
    case Polling => assert Enabled(s, PollReady) && !ByUser(PollReady);
    case ReadyDrop => assert Enabled(s, CompleteReady) && !ByUser(CompleteReady);
    case ClosedDrop => assert Enabled(s, NotifyClosed) && !ByUser(NotifyClosed);
    case Finishing => assert Enabled(s, Finish) && !ByUser(Finish);
  }

  // The drop of the handle or of a waker that finds an open task held by nobody else.
  predicate DropsIdle(s: Task, step: Step) {
    (step.HandleDrop? || step.DropOneWaker?) && !s.flags.needStart && !s.flags.completed && !s.flags.closed && s.flags.refs == 1
  }

  // A runnable is queued by the poll that starts the task, by a wake or a cancellation of a task
  // with no runnable in sight, by a pending poll that was woken, and by the drop of an idle task's
  // last reference.
  predicate Queues(s: Task, step: Step) {
    || (step.HandlePoll? && s.flags.needStart && !s.flags.closed)
    || (Wakes(s, step) && !s.flags.scheduled && s.held.stage != Polling && s.held.stage != ReadyDrop)
    || (step.PollPending? && s.flags.scheduled && !s.flags.closed)
    || DropsIdle(s, step)
  }

  function StageAfter(s: Task, step: Step): Stage {
    match step
    case Pop => if s.flags.closed then ClosedDrop else Polling
    case PollReady => ReadyDrop
    case PollPending => if s.flags.closed then ClosedDrop else NotRunning
    case CompleteReady => Finishing
    case NotifyClosed => Finishing
    case Finish => NotRunning
    case _ => s.held.stage
  }

  function One(b: bool): nat {
    if b then 1 else 0
  }

  ghost predicate HoldingMoves(s: Task, step: Step, t: Task) {
    && (t.held.handle <==> s.held.handle && !step.HandleDrop?)
    && t.held.wakers == s.held.wakers + One(step.CloneWaker?) - One(step.WakeByVal? || step.DropOneWaker?)
    && t.held.queued == s.held.queued + One(Queues(s, step)) - One(step.Pop?)
    && t.held.stage == StageAfter(s, step)
  }

  // The run finds the task closed.
  predicate FindsClosed(s: Task, step: Step) {
    (step.Pop? || step.PollPending?) && s.flags.closed
  }

  ghost predicate LedgerMoves(s: Task, step: Step, t: Task) {
    && t.ledger.polls == s.ledger.polls + One(step.Pop? && !s.flags.closed)
    && t.ledger.drops == s.ledger.drops + One(step.PollReady? || FindsClosed(s, step))
    && t.ledger.produced == s.ledger.produced + One(step.CompleteReady?)
    && t.ledger.consumed == s.ledger.consumed
         + One(((step.HandlePoll? || step.HandleDrop?) && s.flags.completed && !s.flags.closed)
               || (step.CompleteReady? && s.flags.closed))
  }

  // The handle of a closed task is dropped while somebody else holds it.
  predicate Panics(s: Task, step: Step) {
    step.HandleDrop? && s.flags.closed && s.flags.refs >= 2
  }

  // The reference that the step takes, and the guard waker of a scheduler with data, do not fit.
  predicate Overflows(s: Task, step: Step) {
    var refs := s.flags.refs + One(s.sized);
    || (step.CloneWaker? && s.flags.refs >= REF_COUNT_ABORT)
    || (Queues(s, step) && !DropsIdle(s, step) && refs + One(step.Cancel?) >= REF_COUNT_ABORT)
  }

  ghost predicate Effects(s: Task, step: Step, t: Task) {
    && (t.faults.aborted <==> Overflows(s, step))
    && (!t.faults.aborted ==>
          HoldingMoves(s, step, t) && LedgerMoves(s, step, t)
          && (t.faults.panicked <==> s.faults.panicked || Panics(s, step)))
  }

  lemma EffectsOfHandlePoll(s: Task, w: nat)
    requires Coherent(s) && Enabled(s, HandlePoll(w))
    ensures Effects(s, HandlePoll(w), PollHandle(s, w))
  {}

  lemma EffectsOfHandleDrop(s: Task)
    requires Coherent(s) && Enabled(s, HandleDrop)
    ensures Effects(s, HandleDrop, DropHandle(s))
  {
    EnabledIsLive(s, HandleDrop);
  }

  lemma EffectsOfCancel(s: Task)
    requires Coherent(s) && Enabled(s, Cancel)
    ensures Effects(s, Cancel, CancelTask(s))
  {}

  lemma EffectsOfWake(s: Task)
    requires Coherent(s) && Enabled(s, WakeByRef)
    ensures Effects(s, WakeByRef, DoWake(s))
  {}

  // The last waker finds the task completed or closed, or is followed by a runnable.
  lemma EffectsOfRelease(s: Task)
    requires Coherent(s) && Enabled(s, DropOneWaker)
    ensures Effects(s, DropOneWaker, ReleaseWaker(s))
  {
    EnabledIsLive(s, DropOneWaker);
  }

  lemma EffectsOfWakeByVal(s: Task)
    requires Coherent(s) && Enabled(s, WakeByVal)
    ensures Effects(s, WakeByVal, WakeAndRelease(s))
  {
    var t := DoWake(s);
    EffectsOfWake(s);
    CoherentWake(s);
    if !t.faults.aborted {
      WakeIsSeen(s);
      EffectsOfRelease(t);
      WakeThenRelease(s, t, ReleaseWaker(t));
    }
  }

  // After a wake the task is completed or closed, or another reference holds it.
  lemma WakeIsSeen(s: Task)
    requires Coherent(s) && Enabled(s, WakeByVal) && Coherent(DoWake(s)) && !DoWake(s).faults.aborted
    ensures !DropsIdle(DoWake(s), DropOneWaker)
  {
    EnabledIsLive(DoWake(s), DropOneWaker);
  }

  lemma WakeThenRelease(s: Task, t: Task, u: Task)
    requires Effects(s, WakeByRef, t) && Effects(t, DropOneWaker, u) && !DropsIdle(t, DropOneWaker)
    requires !t.faults.aborted
    ensures Effects(s, WakeByVal, u)
  {}

  lemma EffectsOfPop(s: Task)
    requires Coherent(s) && Enabled(s, Pop)
    ensures Effects(s, Pop, BeginRun(s))
  {}

  lemma EffectsOfPending(s: Task)
    requires Coherent(s) && Enabled(s, PollPending)
    ensures Effects(s, PollPending, Pending(s))
  {
    EnabledIsLive(s, PollPending);
  }

  lemma StepEffects(s: Task, step: Step)
    requires Coherent(s) && Enabled(s, step)
    ensures Effects(s, step, Next(s, step))
  {
    match step
    case HandlePoll(w) => EffectsOfHandlePoll(s, w);
    case HandleDrop => EffectsOfHandleDrop(s);
    case Cancel => EffectsOfCancel(s);
    case WakeByRef => EffectsOfWake(s);
    case WakeByVal => EffectsOfWakeByVal(s);
    case DropOneWaker => EffectsOfRelease(s);
    case Pop => EffectsOfPop(s);
    case PollPending => EffectsOfPending(s);
    case _ => EffectsOfRest(s, step);
  }

  lemma EffectsOfRest(s: Task, step: Step)
    requires Coherent(s) && Enabled(s, step)
    requires step.CloneWaker? || step.PollReady? || step.CompleteReady? || step.NotifyClosed? || step.Finish?
    ensures Effects(s, step, Next(s, step))
  {
    match step
    case CloneWaker =>
    case PollReady =>
    case CompleteReady =>
    case NotifyClosed =>
    case Finish =>
  }
}
