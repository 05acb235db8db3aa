// One task as a step system: the unpacked state word together with everything that holds a
// reference to the task and everything that happens to its future and output.
//
// A step is an atomic piece of the runtime between two points where user code can run
// (the poll, the future's destructor, a waker called by `notify`).  At those points any
// sequence of handle and waker steps may follow, also while the task is being run.
module TaskLifecycle {
  import opened Options
  import opened TaskFlags

  // Where a run of the task stands.
  datatype Stage =
    | NotRunning
    | Polling      // inside the future's `poll`
    | ReadyDrop    // `poll` returned Ready; the future's destructor is running
    | ClosedDrop   // the task is closed; the future's destructor is running
    | Finishing    // the awaiter has been notified; the run still holds its reference

  // Everything that holds a reference to the task.
  datatype Holding = Holding(
    handle: bool,               // the join handle is alive
    queued: nat,                // runnables in the executor's queue
    stage: Stage,               // a run holds a reference until it ends
    wakers: nat)                // live wakers

  // What has happened to the future, the output and the memory so far.
  datatype Ledger = Ledger(
    polls: nat,                 // polls of the future begun
    drops: nat,                 // times the future was dropped
    produced: nat,              // times an output was written
    consumed: nat,              // times an output was read out
    freed: nat)                 // times the memory was released

  // The awaiter slot of the header.
  datatype Join = Join(
    awaiter: Option<nat>,       // the stored waker
    waiting: Option<nat>,       // the waker of the handle's last poll, if that poll is still owed a wake
    notified: seq<nat>)         // wakers woken on behalf of the handle

  datatype Faults = Faults(
    assertion: bool,            // a debug assertion failed
    panicked: bool,             // `unreachable!` was reached
    aborted: bool)              // the process aborted

  // `sized` tells whether the scheduler captures data, so that `schedule` takes a guard waker.
  datatype Task = Task(sized: bool, flags: Flags, held: Holding, ledger: Ledger, join: Join, faults: Faults)

  function Spawned(sized: bool): Task {
    Task(sized, INITIAL, Holding(true, 0, NotRunning, 0), Ledger(0, 0, 0, 0, 0), Join(None, None, []),
         Faults(false, false, false))
  }

  datatype Step =
    // steps of user code
    | HandlePoll(waker: nat)
    | HandleDrop
    | Cancel
    | CloneWaker
    | WakeByRef
    | WakeByVal
    | DropOneWaker
    // steps of a run
    | Pop
    | PollReady
    | PollPending
    | CompleteReady
    | NotifyClosed
    | Finish

  predicate ByUser(step: Step) {
    step.HandlePoll? || step.HandleDrop? || step.Cancel? || step.CloneWaker? || step.WakeByRef? || step.WakeByVal?
    || step.DropOneWaker?
  }

  // Who may take a step: handle steps need the handle, waker steps need a live waker (during a
  // poll the borrowed context waker may be cloned and woken by reference), and the executor
  // runs a queued runnable only from its own loop.
  predicate Enabled(s: Task, step: Step) {
    var h := s.held;
    !s.faults.aborted &&
    match step
    case HandlePoll(_) => h.handle
    case HandleDrop => h.handle
    case Cancel => h.handle
    case CloneWaker => h.wakers > 0 || h.stage == Polling
    case WakeByRef => h.wakers > 0 || h.stage == Polling
    case WakeByVal => h.wakers > 0
    case DropOneWaker => h.wakers > 0
    case Pop => h.queued > 0 && h.stage == NotRunning
    case PollReady => h.stage == Polling
    case PollPending => h.stage == Polling
    case CompleteReady => h.stage == ReadyDrop
    case NotifyClosed => h.stage == ClosedDrop
    case Finish => h.stage == Finishing
  }

  function Holders(h: Holding): nat {
    (if h.handle then 1 else 0) + h.queued + (if h.stage != NotRunning then 1 else 0) + h.wakers
  }

  // ---------- pieces of src/task/raw.rs and src/task/header.rs ----------

  function Check(s: Task, holds: bool): Task {
    if holds then s else s.(faults := s.faults.(assertion := true))
  }

  function Abort(s: Task): Task {
    s.(faults := s.faults.(aborted := true))
  }

  function Destroy(s: Task): Task {
    s.(ledger := s.ledger.(freed := s.ledger.freed + 1))
  }

  function DropFuture(s: Task, stage: Stage): Task {
    s.(ledger := s.ledger.(drops := s.ledger.drops + 1), held := s.held.(stage := stage))
  }

  function ReadOutput(s: Task): Task {
    s.(ledger := s.ledger.(consumed := s.ledger.consumed + 1))
  }

  // A runnable with its own reference enters the queue.  The guard waker is released before
  // `schedule` returns, so it only matters for the overflow check.
  function Schedule(s: Task): Task {
    if s.flags.refs >= REF_COUNT_ABORT || (s.sized && s.flags.refs + 1 >= REF_COUNT_ABORT) then Abort(s)
    else s.(flags := s.flags.(refs := s.flags.refs + 1), held := s.held.(queued := s.held.queued + 1))
  }

  // Takes the awaiter and wakes it, unless it is the waker of the current caller.
  function Notify(j: Join, current: Option<nat>): Join {
    if j.awaiter.Some? && j.awaiter != current
    then Join(None, if j.waiting == j.awaiter then None else j.waiting, j.notified + [j.awaiter.value])
    else j.(awaiter := None)
  }

  function RegisterAwaiter(j: Join, waker: nat): Join {
    j.(awaiter := Some(waker), waiting := Some(waker))
  }

  function DoWake(s: Task): Task {
    var t := TransitionToScheduled(s.flags);
    if t.outcome.action == Submit then Schedule(s.(flags := t.next)) else s.(flags := t.next)
  }

  function ReleaseWaker(s: Task): Task
    requires s.held.wakers >= 1
  {
    var t := DropWakerRef(s.flags);
    var s' := Check(s.(flags := t.next, held := s.held.(wakers := s.held.wakers - 1)), t.outcome.assertionsHold);
    match t.outcome.action
    case WakerDestroy => Destroy(s')
    case WakerSchedule => Schedule(s')
    case WakerDoNothing => s'
  }

  // The run gives up its reference.
  function DropTask(s: Task): Task {
    var t := DecrRef(s.flags);
    var s' := Check(s.(flags := t.next, held := s.held.(stage := NotRunning)), t.outcome.assertionsHold);
    if t.outcome.action then Destroy(s') else s'
  }

  // ---------- the steps ----------

  function PollHandle(s: Task, waker: nat): Task {
    var t := PollJoinHandle(s.flags);
    var s' := Check(s.(flags := t.next), t.outcome.assertionsHold);
    match t.outcome.action
    case Start => Schedule(s'.(join := RegisterAwaiter(s.join, waker)))
    case Register => s'.(join := RegisterAwaiter(s.join, waker))
    case Complete(closed) =>
      var n := s'.(join := Notify(s.join, Some(waker)).(waiting := None));
      if closed then n else ReadOutput(n)
  }

  function DropHandle(s: Task): Task {
    var t := DropJoinHandle(s.flags);
    var s' := s.(flags := t.next, held := s.held.(handle := false), join := s.join.(waiting := None));
    match t.outcome
    case Aborted => Abort(s')
    case Unreachable => s'.(faults := s'.faults.(panicked := true))
    case Returned(action, holds) =>
      var c := Check(s', holds);
      match action
      case HandleDestroy => Destroy(c)
      case HandleSchedule => Schedule(c)
      case HandleDoNothing => c
      case DropOutput(destroy) => if destroy then Destroy(ReadOutput(c)) else ReadOutput(c)
  }

  function CancelTask(s: Task): Task {
    var t := TransitionToClosed(s.flags);
    var s' := s.(flags := t.next);
    match t.outcome
    case Aborted => Abort(s')
    case Unreachable => s'
    case Returned(CloseDoNothing, _) => s'
    case Returned(Close(schedule), _) =>
      var c := if schedule then Schedule(s') else s';
      if c.faults.aborted then c else c.(join := Notify(s.join, None))
  }

  function Clone(s: Task): Task {
    var t := IncrRef(s.flags);
    if t.outcome == Aborted then Abort(s)
    else s.(flags := t.next, held := s.held.(wakers := s.held.wakers + 1))
  }

  function WakeAndRelease(s: Task): Task
    requires s.held.wakers >= 1
  {
    var s' := DoWake(s);
    if s'.faults.aborted then s' else ReleaseWaker(s')
  }

  function BeginRun(s: Task): Task
    requires s.held.queued >= 1
  {
    var t := TransitionToRunning(s.flags);
    var s' := Check(s.(flags := t.next, held := s.held.(queued := s.held.queued - 1)), t.outcome.assertionsHold);
    match t.outcome.action
    case RunClosed => DropFuture(s', ClosedDrop)
    case Running => s'.(ledger := s.ledger.(polls := s.ledger.polls + 1), held := s'.held.(stage := Polling))
  }

  function Completed(s: Task): Task {
    var t := TransitionToCompleted(s.flags);
    var s' := s.(flags := t.next, ledger := s.ledger.(produced := s.ledger.produced + 1),
                 join := Notify(s.join, None), held := s.held.(stage := Finishing));
    if t.outcome.action == CompletedClosed then ReadOutput(s') else s'
  }

  function Pending(s: Task): Task {
    var t := TransitionToIdle(s.flags);
    var s' := Check(s.(flags := t.next), t.outcome.assertionsHold);
    match t.outcome.action
    case IdleClosed => DropFuture(s', ClosedDrop)
    case IdleSchedule => var c := Schedule(s'); if c.faults.aborted then c else DropTask(c)
    case IdleDoNothing => DropTask(s')
  }

  function Next(s: Task, step: Step): Task
    requires Enabled(s, step)
  {
    match step
    case HandlePoll(waker) => PollHandle(s, waker)
    case HandleDrop => DropHandle(s)
    case Cancel => CancelTask(s)
    case CloneWaker => Clone(s)
    case WakeByRef => DoWake(s)
    case WakeByVal => WakeAndRelease(s)
    case DropOneWaker => ReleaseWaker(s)
    case Pop => BeginRun(s)
    case PollReady => DropFuture(s, ReadyDrop)
    case PollPending => Pending(s)
    case CompleteReady => Completed(s)
    case NotifyClosed => s.(join := Notify(s.join, None), held := s.held.(stage := Finishing))
    case Finish => DropTask(s)
  }

  // ---------- runs ----------

  // Nothing is left to do: the steps are over, or the process has aborted.
  predicate Over(s: Task, steps: seq<Step>) {
    |steps| == 0 || s.faults.aborted
  }

  // Every step can be taken, one after the other, until the run is over.
  predicate Legal(s: Task, steps: seq<Step>)
    decreases |steps|
  {
    Over(s, steps) || (Enabled(s, steps[0]) && Legal(Next(s, steps[0]), steps[1..]))
  }

  function Exec(s: Task, steps: seq<Step>): Task
    requires Legal(s, steps)
    decreases |steps|
  {
    if Over(s, steps) then s else Exec(Next(s, steps[0]), steps[1..])
  }

  lemma {:induction false} ExecFirst(s: Task, step: Step, rest: seq<Step>)
    requires Enabled(s, step)
    ensures Legal(s, [step] + rest) == Legal(Next(s, step), rest)
    ensures Legal(Next(s, step), rest) ==> Exec(s, [step] + rest) == Exec(Next(s, step), rest)
  {
    assert ([step] + rest)[1..] == rest;
  }

  // A run can be cut anywhere.
  lemma {:induction false} ExecAppend(s: Task, first: seq<Step>, rest: seq<Step>)
    ensures Legal(s, first + rest) <==> Legal(s, first) && Legal(Exec(s, first), rest)
    ensures Legal(s, first + rest) ==> Exec(s, first + rest) == Exec(Exec(s, first), rest)
    decreases |first|
  {
    if |first| == 0 {
      assert first + rest == rest;
    } else if !s.faults.aborted {
      assert (first + rest)[1..] == first[1..] + rest;
      if Enabled(s, first[0]) {
        ExecAppend(Next(s, first[0]), first[1..], rest);
      }
    }
  }

  // `steps` can be taken from `s` and end in `t` without an abort.
  predicate Reaches(s: Task, steps: seq<Step>, t: Task) {
    Legal(s, steps) && Exec(s, steps) == t && !t.faults.aborted
  }

  lemma {:induction false} Joined(s: Task, first: seq<Step>, t: Task, rest: seq<Step>, u: Task) returns (steps: seq<Step>)
    requires Reaches(s, first, t) && Reaches(t, rest, u)
    ensures steps == first + rest && Reaches(s, steps, u)
  {
    steps := first + rest;
    ExecAppend(s, first, rest);
  }

  lemma {:induction false} Two(s: Task, a: Step, b: Step) returns (t: Task)
    requires Enabled(s, a) && Enabled(Next(s, a), b) && !Next(Next(s, a), b).faults.aborted
    ensures t == Next(Next(s, a), b) && Reaches(s, [a, b], t)
  {
    t := Next(Next(s, a), b);
    ExecFirst(Next(s, a), b, []);
    ExecFirst(s, a, [b] + []);
    assert [a] + ([b] + []) == [a, b];
  }

  lemma {:induction false} Three(s: Task, a: Step, b: Step, c: Step) returns (t: Task)
    requires Enabled(s, a) && Enabled(Next(s, a), b) && Enabled(Next(Next(s, a), b), c)
    requires !Next(Next(Next(s, a), b), c).faults.aborted
    ensures t == Next(Next(Next(s, a), b), c) && Reaches(s, [a, b, c], t)
  {
    t := Two(Next(s, a), b, c);
    ExecFirst(s, a, [b, c]);
    assert [a] + [b, c] == [a, b, c];
  }
}
