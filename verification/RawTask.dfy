// The task as the runtime holds it: the header with the packed state word and the awaiter slot
// (src/task/header.rs), the operations behind the task's function table (src/task/raw.rs), the
// join handle (src/task/join.rs) and the runnable (src/task/task_impl.rs).  Every operation is
// proved to take exactly the steps of TaskLifecycle, and to touch the task only while its
// memory has not been released.
module RawTask {
  import opened Options
  import opened TaskFlags
  import opened TaskState
  import opened TaskLifecycle
  import opened TaskSafety
  import opened TaskCoherence
  import opened TaskHistory
  import opened LocalQueue

  class Header {
    const state: State
    var awaiter: Option<nat>

    constructor ()
      ensures state.View() == INITIAL && awaiter == None && fresh(state)
    {
      state := new State();
      awaiter := None;
    }

    // Takes the awaiter; it is woken unless it is the waker of the current caller.
    method Notify(current: Option<nat>) returns (woken: Option<nat>)
      modifies this`awaiter
      ensures awaiter == None
      ensures woken == if old(awaiter).Some? && old(awaiter) != current then old(awaiter) else None
    {
      var waker := awaiter;
      awaiter := None;
      match waker {
        case None =>
          woken := None;
        case Some(w) =>
          if current.None? || current.value != w {
            woken := Some(w);
          } else {
            woken := None;
          }
      }
    }

    method Register(waker: nat)
      modifies this`awaiter
      ensures awaiter == Some(waker)
    {
      awaiter := Some(waker);
    }
  }

  // What user code does while it has control: a step of this task's handle or wakers, or
  // something that queues the runnable of another task.
  datatype UserOp = Own(step: Step) | Other(entry: nat, front: bool)

  function OwnSteps(ops: seq<UserOp>): seq<Step> {
    if ops == [] then [] else (if ops[0].Own? then [ops[0].step] else []) + OwnSteps(ops[1..])
  }

  // What user code does at each point of a run where it gets control.
  datatype Script = Script(
    pollOps: seq<UserOp>,         // inside the future's `poll`
    ready: bool,                  // whether the poll returns Ready
    destructorOps: seq<UserOp>,   // inside the future's destructor
    notifiedOps: seq<UserOp>)     // inside the awaiter's wake and the output's destructor
  {
    function Poll(): seq<Step> { OwnSteps(pollOps) }
    function Destructor(): seq<Step> { OwnSteps(destructorOps) }
    function Notified(): seq<Step> { OwnSteps(notifiedOps) }
  }

  datatype PollResult = NotReady | ReadyNone | ReadyOutput

  predicate UserSteps(steps: seq<Step>) {
    forall i :: 0 <= i < |steps| ==> ByUser(steps[i])
  }

  predicate UserOps(ops: seq<UserOp>, id: nat) {
    && UserSteps(OwnSteps(ops))
    && forall i :: 0 <= i < |ops| && ops[i].Other? ==> ops[i].entry != id
  }

  predicate UserScript(script: Script, id: nat) {
    UserOps(script.pollOps, id) && UserOps(script.destructorOps, id) && UserOps(script.notifiedOps, id)
  }

  // The rest of a run that found the task closed.
  function ClosingTrace(script: Script): seq<Step> {
    script.Destructor() + ([NotifyClosed] + (script.Notified() + [Finish]))
  }

  function ReadyTrace(script: Script): seq<Step> {
    [PollReady] + (script.Destructor() + ([CompleteReady] + (script.Notified() + [Finish])))
  }

  function PendingTrace(s: Task, script: Script): seq<Step>
    requires Enabled(s, PollPending)
  {
    [PollPending] + if Next(s, PollPending).held.stage == ClosedDrop then ClosingTrace(script) else []
  }

  // The steps of a run, from the removal of the runnable from the queue to the release of the
  // run's reference.
  function PolledTrace(s: Task, script: Script): seq<Step> {
    if !Legal(s, script.Poll()) || Exec(s, script.Poll()).held.stage != Polling || Exec(s, script.Poll()).faults.aborted
    then script.Poll()
    else script.Poll() + if script.ready then ReadyTrace(script) else PendingTrace(Exec(s, script.Poll()), script)
  }

  function RunTrace(s: Task, script: Script): seq<Step>
    requires Enabled(s, Pop)
  {
    [Pop] + if Next(s, Pop).held.stage == ClosedDrop then ClosingTrace(script) else PolledTrace(Next(s, Pop), script)
  }

  predicate HasWake(steps: seq<Step>) {
    exists i :: 0 <= i < |steps| && (steps[i].WakeByRef? || steps[i].WakeByVal?)
  }

  // The poll that began in `s` returned Pending after user code had woken the task, and nobody
  // had closed it.
  predicate WokenDuringPoll(s: Task, script: Script) {
    !script.ready && HasWake(script.Poll()) && !ClosedDuringPoll(s, script)
  }

  predicate ClosedDuringPoll(s: Task, script: Script) {
    Legal(s, script.Poll()) && Exec(s, script.Poll()).flags.closed
  }

  // ---------- the queue ----------

  function Queued(q: seq<nat>, entry: nat, front: bool): seq<nat> {
    if front then [entry] + q else q + [entry]
  }

  // The runnable enters behind if there is one more than before.
  function Behind(q: seq<nat>, id: nat, s: Task, t: Task): seq<nat> {
    if t.held.queued > s.held.queued then q + [id] else q
  }

  // The first poll of the handle puts the runnable in front; every other step puts it behind.
  function Enqueued(q: seq<nat>, id: nat, s: Task, step: Step): seq<nat>
    requires Enabled(s, step)
  {
    if !step.HandlePoll? then Behind(q, id, s, Next(s, step))
    else if s.flags.needStart && !s.flags.closed then [id] + q
    else q
  }

  predicate OpEnabled(s: Task, op: UserOp) {
    op.Own? ==> Enabled(s, op.step)
  }

  function AfterOp(s: Task, op: UserOp): Task
    requires OpEnabled(s, op)
  {
    match op
    case Own(step) => Next(s, step)
    case Other(_, _) => s
  }

  function EntriesAfterOp(q: seq<nat>, id: nat, s: Task, op: UserOp): seq<nat>
    requires OpEnabled(s, op)
  {
    match op
    case Own(step) => Enqueued(q, id, s, step)
    case Other(entry, front) => Queued(q, entry, front)
  }

  // The queue after user code.
  function EntriesAfter(q: seq<nat>, id: nat, s: Task, ops: seq<UserOp>): seq<nat>
    requires Legal(s, OwnSteps(ops))
    decreases |ops|
  {
    if ops == [] || s.faults.aborted then q
    else
      OwnFirst(ops);
      EntriesAfter(EntriesAfterOp(q, id, s, ops[0]), id, AfterOp(s, ops[0]), ops[1..])
  }

  lemma OwnFirst(ops: seq<UserOp>)
    requires ops != []
    ensures ops[0].Own? ==> OwnSteps(ops) == [ops[0].step] + OwnSteps(ops[1..]) && OwnSteps(ops)[1..] == OwnSteps(ops[1..])
    ensures ops[0].Other? ==> OwnSteps(ops) == OwnSteps(ops[1..])
  {}

  lemma OpsFirst(q: seq<nat>, id: nat, s: Task, ops: seq<UserOp>)
    requires ops != [] && !s.faults.aborted && Legal(s, OwnSteps(ops)) && UserOps(ops, id)
    ensures OpEnabled(s, ops[0]) && UserOps(ops[1..], id)
    ensures var t := AfterOp(s, ops[0]);
      && Legal(t, OwnSteps(ops[1..]))
      && Exec(s, OwnSteps(ops)) == Exec(t, OwnSteps(ops[1..]))
      && EntriesAfter(q, id, s, ops) == EntriesAfter(EntriesAfterOp(q, id, s, ops[0]), id, t, ops[1..])
      && (t.faults.aborted ==> Exec(s, OwnSteps(ops)) == t)
  {
    OwnFirst(ops);
  }

  // The pushes of other runnables alone.
  function OthersPushed(q: seq<nat>, ops: seq<UserOp>): seq<nat>
    decreases |ops|
  {
    if ops == [] then q
    else OthersPushed(if ops[0].Other? then Queued(q, ops[0].entry, ops[0].front) else q, ops[1..])
  }

  function ClosingEntries(q: seq<nat>, script: Script): seq<nat> {
    OthersPushed(OthersPushed(q, script.destructorOps), script.notifiedOps)
  }

  // The queue after a poll that began in `s`: a task woken during a pending poll comes behind
  // everything pushed during the poll.
  function PolledEntries(q: seq<nat>, id: nat, s: Task, script: Script): seq<nat> {
    var polled := OthersPushed(q, script.pollOps);
    if script.ready || ClosedDuringPoll(s, script) then ClosingEntries(polled, script)
    else if WokenDuringPoll(s, script) then polled + [id]
    else polled
  }

  // The queue after a whole run.
  function RunEntries(q: seq<nat>, id: nat, s: Task, script: Script): seq<nat>
    requires q != [] && Enabled(s, Pop)
  {
    if s.flags.closed then ClosingEntries(q[1..], script) else PolledEntries(q[1..], id, Next(s, Pop), script)
  }

  // Agreement with the step system; an aborted process has no state to compare.
  predicate Agrees(actual: Task, expected: Task) {
    if expected.faults.aborted then actual.faults.aborted else actual == expected
  }

  class RawTask {
    const id: nat
    const sized: bool
    const header: Header
    const queue: Queue<nat>
    var aborted: bool

    ghost var handle: bool
    ghost var stage: Stage
    ghost var wakers: nat
    ghost var ledger: Ledger
    ghost var waiting: Option<nat>
    ghost var notified: seq<nat>
    ghost var assertionFailed: bool
    ghost var panicked: bool

    // src/task/task_impl.rs: spawn_local.  The future is not queued until the handle is polled.
    constructor (id: nat, sized: bool, queue: Queue<nat>)
      requires multiset(queue.entries)[id] == 0
      ensures this.id == id && this.queue == queue && fresh(header) && fresh(header.state)
      ensures View() == Spawned(sized)
    {
      this.id := id;
      this.sized := sized;
      this.queue := queue;
      header := new Header();
      aborted := false;
      handle, stage, wakers := true, NotRunning, 0;
      ledger := Ledger(0, 0, 0, 0, 0);
      waiting, notified := None, [];
      assertionFailed, panicked := false, false;
    }

    ghost function View(): Task
      reads this, header, header.state, queue
    {
      Task(sized, header.state.View(), Holding(handle, multiset(queue.entries)[id], stage, wakers), ledger,
           Join(header.awaiter, waiting, notified), Faults(assertionFailed, panicked, aborted))
    }

    // The task's memory has not been released and the process has not aborted.
    ghost predicate Live()
      reads this
    {
      ledger.freed == 0 && !aborted
    }

    ghost function Repr(): set<object> {
      {this, header, header.state, queue}
    }

    ghost method Check(holds: bool)
      modifies this`assertionFailed
      ensures assertionFailed == (old(assertionFailed) || !holds)
    {
      assertionFailed := assertionFailed || !holds;
    }

    // ---------- src/task/raw.rs ----------

    // Takes one more reference, or aborts.
    method TakeRef()
      requires Live()
      modifies this`aborted, header.state
      ensures aborted == (old(header.state.View()).refs >= REF_COUNT_ABORT)
      ensures !aborted ==> header.state.View() == old(header.state.View()).(refs := old(header.state.View()).refs + 1)
    {
      var out := header.state.IncrRef();
      aborted := out.Aborted?;
    }

    method CloneWaker()
      requires Live()
      modifies this`aborted, this`wakers, header.state
      ensures Agrees(View(), Clone(old(View())))
    {
      TakeRef();
      if !aborted {
        wakers := wakers + 1;
      }
    }

    // The scheduler puts the runnable at the back of the queue, or in front when the task yields.
    method Schedule(yieldNow: bool)
      requires Live()
      modifies Repr()
      ensures Agrees(View(), TaskLifecycle.Schedule(old(View())))
      ensures !aborted ==> queue.entries == if yieldNow then [id] + old(queue.entries) else old(queue.entries) + [id]
    {
      TakeRef();
      if aborted {
        return;
      }
      if sized {
        ScheduleGuarded(yieldNow);
      } else {
        PushRunnable(yieldNow);
      }
    }

    method PushRunnable(yieldNow: bool)
      modifies queue
      ensures queue.entries == if yieldNow then [id] + old(queue.entries) else old(queue.entries) + [id]
      ensures multiset(queue.entries)[id] == multiset(old(queue.entries))[id] + 1
    {
      if yieldNow {
        queue.PushFront(id);
      } else {
        queue.Push(id);
      }
    }

    // A scheduler with captured data is called under a temporary waker.
    method ScheduleGuarded(yieldNow: bool)
      requires Live() && header.state.View().refs >= 1
      modifies Repr()
      ensures aborted == (old(header.state.View()).refs >= REF_COUNT_ABORT)
      ensures !aborted ==>
        && View() == old(View()).(held := old(View()).held.(queued := old(View()).held.queued + 1))
        && queue.entries == if yieldNow then [id] + old(queue.entries) else old(queue.entries) + [id]
    {
      CloneWaker();
      if aborted {
        return;
      }
      PushRunnable(yieldNow);
      DropGuard();
    }

    // The guard waker is never the last reference: the runnable just queued holds one as well.
    method DropGuard()
      requires Live() && wakers >= 1 && header.state.View().refs >= 2
      modifies this`wakers, header.state
      ensures wakers == old(wakers) - 1
      ensures header.state.View() == old(header.state.View()).(refs := old(header.state.View()).refs - 1)
    {
      var out := header.state.DropWakerRef();
      wakers := wakers - 1;
      assert out.action == WakerDoNothing;
    }

    method DoWake()
      requires Live()
      modifies Repr()
      ensures Agrees(View(), TaskLifecycle.DoWake(old(View())))
      ensures !aborted ==> queue.entries == Behind(old(queue.entries), id, old(View()), View())
    {
      var out := header.state.TransitionToScheduled();
      match out.action {
        case Submit => Schedule(false);
        case WakeDoNothing =>
      }
    }

    method WakeByRefOnce()
      requires Live()
      modifies Repr()
      ensures Agrees(View(), TaskLifecycle.DoWake(old(View())))
      ensures !aborted ==> queue.entries == Behind(old(queue.entries), id, old(View()), View())
    {
      DoWake();
    }

    method WakeByValOnce()
      requires Live() && wakers >= 1
      modifies Repr()
      ensures Agrees(View(), WakeAndRelease(old(View())))
      ensures !aborted ==> queue.entries == Behind(old(queue.entries), id, old(View()), View())
    {
      DoWake();
      if !aborted {
        DropWaker();
      }
    }

    method DropWaker()
      requires Live() && wakers >= 1
      modifies Repr()
      ensures Agrees(View(), ReleaseWaker(old(View())))
      ensures !aborted ==> queue.entries == Behind(old(queue.entries), id, old(View()), View())
    {
      var out := header.state.DropWakerRef();
      wakers := wakers - 1;
      Check(out.assertionsHold);
      match out.action {
        case WakerDestroy => Destroy();
        case WakerSchedule => Schedule(false);
        case WakerDoNothing =>
      }
    }

    ghost method Destroy()
      requires Live()
      modifies this`ledger
      ensures View() == TaskLifecycle.Destroy(old(View()))
    {
      ledger := ledger.(freed := ledger.freed + 1);
    }

    // The run gives up its reference.
    method DropTask()
      requires Live()
      modifies Repr()
      ensures View() == TaskLifecycle.DropTask(old(View()))
      ensures queue.entries == old(queue.entries)
    {
      var out := header.state.DecrRef();
      Check(out.assertionsHold);
      stage := NotRunning;
      if out.action {
        Destroy();
      }
    }

    ghost method DropFuture(next: Stage)
      requires Live()
      modifies this`ledger, this`stage
      ensures View() == TaskLifecycle.DropFuture(old(View()), next)
    {
      ledger := ledger.(drops := ledger.drops + 1);
      stage := next;
    }

    ghost method ReadOutput()
      requires Live()
      modifies this`ledger
      ensures View() == TaskLifecycle.ReadOutput(old(View()))
    {
      ledger := ledger.(consumed := ledger.consumed + 1);
    }

    // src/task/header.rs: notify, with the record of who was woken.
    method NotifyAwaiter(current: Option<nat>)
      requires Live()
      modifies this`waiting, this`notified, header`awaiter
      ensures View() == old(View()).(join := Notify(old(View()).join, current))
    {
      ghost var stored := header.awaiter;
      var woken := header.Notify(current);
      if woken.Some? {
        notified := notified + [woken.value];
        waiting := if waiting == stored then None else waiting;
      }
    }

    // ---------- src/task/join.rs ----------

    // A pending poll leaves the caller's waker owed a wake; a poll that is ready either takes the
    // output or reports that there is none.
    method PollInner(waker: nat) returns (result: PollResult)
      requires Live() && handle
      modifies Repr()
      ensures Agrees(View(), PollHandle(old(View()), waker))
      ensures !aborted ==>
        && (result == NotReady <==> View().join.waiting == Some(waker))
        && (result == ReadyOutput <==> View().ledger.consumed == old(View()).ledger.consumed + 1)
        && queue.entries == (if old(View()).flags.needStart && !old(View()).flags.closed
                             then [id] + old(queue.entries) else old(queue.entries))
    {
      var out := header.state.PollJoinHandle();
      Check(out.assertionsHold);
      match out.action {
        case Start =>
          RegisterWaiting(waker);
          Schedule(true);
          result := NotReady;
        case Register =>
          RegisterWaiting(waker);
          result := NotReady;
        case Complete(closed) =>
          EndWaiting(waker);
          if closed {
            result := ReadyNone;
          } else {
            ReadOutput();
            result := ReadyOutput;
          }
      }
    }

    method RegisterWaiting(waker: nat)
      requires Live()
      modifies this`waiting, header`awaiter
      ensures View() == old(View()).(join := RegisterAwaiter(old(View()).join, waker))
    {
      header.Register(waker);
      waiting := Some(waker);
    }

    method EndWaiting(waker: nat)
      requires Live()
      modifies this`waiting, this`notified, header`awaiter
      ensures View() == old(View()).(join := Notify(old(View()).join, Some(waker)).(waiting := None))
    {
      NotifyAwaiter(Some(waker));
      waiting := None;
    }

    method CancelHandle()
      requires Live() && handle
      modifies Repr()
      ensures Agrees(View(), CancelTask(old(View())))
      ensures !aborted ==> queue.entries == Behind(old(queue.entries), id, old(View()), View())
    {
      var out := header.state.TransitionToClosed();
      match out {
        case Aborted =>
          aborted := true;
        case Returned(CloseDoNothing, _) =>
        case Returned(Close(schedule), _) =>
          if schedule {
            Schedule(false);
            if aborted {
              return;
            }
          }
          NotifyAwaiter(None);
      }
    }

    method DropJoinHandle()
      requires Live() && handle
      modifies Repr()
      ensures Agrees(View(), DropHandle(old(View())))
      ensures !aborted ==> queue.entries == Behind(old(queue.entries), id, old(View()), View())
    {
      var out := header.state.DropJoinHandle();
      handle := false;
      waiting := None;
      match out {
        case Aborted =>
          aborted := true;
        case Unreachable =>
          panicked := true;
        case Returned(action, holds) =>
          Check(holds);
          match action {
            case HandleDestroy => Destroy();
            case HandleSchedule => Schedule(false);
            case HandleDoNothing =>
            case DropOutput(destroy) =>
              ReadOutput();
              if destroy {
                Destroy();
              }
          }
      }
    }

    // ---------- user code ----------

    method UserStep(step: Step)
      requires Safe(View()) && Enabled(View(), step) && ByUser(step)
      modifies Repr()
      ensures Agrees(View(), Next(old(View()), step))
      ensures !aborted ==> queue.entries == Enqueued(old(queue.entries), id, old(View()), step)
    {
      EnabledIsLive(View(), step);
      match step {
        case HandlePoll(waker) => var _ := PollInner(waker);
        case HandleDrop => DropJoinHandle();
        case Cancel => CancelHandle();
        case CloneWaker => CloneWaker();
        case WakeByRef => WakeByRefOnce();
        case WakeByVal => WakeByValOnce();
        case DropOneWaker => DropWaker();
      }
    }

    // Whatever queues another task leaves this one as it is.
    method QueueOther(entry: nat, front: bool)
      requires entry != id
      modifies queue
      ensures queue.entries == if front then [entry] + old(queue.entries) else old(queue.entries) + [entry]
      ensures View() == old(View())
    {
      if front {
        queue.PushFront(entry);
      } else {
        queue.Push(entry);
      }
    }

    method OneOp(op: UserOp)
      requires CoherentOrLeaking(View()) && OpEnabled(View(), op)
      requires if op.Own? then ByUser(op.step) else op.entry != id
      modifies Repr()
      ensures Agrees(View(), AfterOp(old(View()), op))
      ensures !aborted ==> CoherentOrLeaking(View())
      ensures !aborted ==> queue.entries == EntriesAfterOp(old(queue.entries), id, old(View()), op)
    {
      match op {
        case Own(step) =>
          StepIsCoherentOrLeaking(View(), step);
          UserStep(step);
        case Other(entry, front) =>
          QueueOther(entry, front);
      }
    }

    method UserCode(ops: seq<UserOp>)
      requires CoherentOrLeaking(View()) && Legal(View(), OwnSteps(ops)) && UserOps(ops, id)
      modifies Repr()
      ensures Agrees(View(), Exec(old(View()), OwnSteps(ops)))
      ensures !aborted ==> CoherentOrLeaking(View())
      ensures !aborted ==> queue.entries == EntriesAfter(old(queue.entries), id, old(View()), ops)
    {
      if |ops| > 0 && !aborted {
        OpsFirst(queue.entries, id, View(), ops);
        OneOp(ops[0]);
        if !aborted {
          UserCode(ops[1..]);
        }
      }
    }

    // During a run nothing that user code does queues the runnable of the task being run.
    method UserCodeInRun(ops: seq<UserOp>)
      requires CoherentOrLeaking(View()) && stage != NotRunning && Legal(View(), OwnSteps(ops)) && UserOps(ops, id)
      modifies Repr()
      ensures Agrees(View(), Exec(old(View()), OwnSteps(ops)))
      ensures !aborted ==> CoherentOrLeaking(View()) && stage == old(stage)
      ensures !aborted ==> queue.entries == OthersPushed(old(queue.entries), ops)
    {
      ghost var start := View();
      ghost var entries := queue.entries;
      UserKeepsStage(start, OwnSteps(ops));
      UserCode(ops);
      if !aborted {
        OnlyOthersInRun(entries, id, start, ops);
      }
    }

    // ---------- running ----------

    // The executor removes the runnable from the front of its queue and runs it.
    method PopAndRun(script: Script) returns (rescheduled: bool)
      requires queue.entries != [] && queue.entries[0] == id && stage == NotRunning && !aborted
      requires CoherentOrLeaking(View()) && UserScript(script, id) && Legal(View(), RunTrace(View(), script))
      modifies Repr()
      ensures Agrees(View(), Exec(old(View()), RunTrace(old(View()), script)))
      ensures !aborted ==>
        rescheduled == (!old(View()).flags.closed && WokenDuringPoll(Next(old(View()), Pop), script))
      ensures !aborted ==> queue.entries == RunEntries(old(queue.entries), id, old(View()), script)
      ensures !aborted ==> CoherentOrLeaking(View())
    {
      ghost var start := View();
      RunIsCoherentOrLeaking(start, RunTrace(start, script));
      EnabledIsLive(start, Pop);
      StepIsCoherentOrLeaking(start, Pop);
      RecordedStep(start, Pop);
      ghost var popped := Next(start, Pop);
      ExecFirst(start, Pop, if popped.held.stage == ClosedDrop then ClosingTrace(script) else PolledTrace(popped, script));
      var closed := BeginRun();
      if closed {
        CloseRun(script);
        rescheduled := false;
      } else {
        rescheduled := Poll(script);
      }
    }

    method BeginRun() returns (closed: bool)
      requires queue.entries != [] && queue.entries[0] == id && Live()
      modifies Repr()
      ensures View() == TaskLifecycle.BeginRun(old(View())) && closed == (stage == ClosedDrop) == old(View()).flags.closed
      ensures queue.entries == old(queue.entries)[1..]
    {
      var runnable := queue.Pop();
      var out := header.state.TransitionToRunning();
      Check(out.assertionsHold);
      match out.action {
        case RunClosed =>
          DropFuture(ClosedDrop);
          closed := true;
        case Running =>
          closed := false;
          ledger := ledger.(polls := ledger.polls + 1);
          stage := Polling;
      }
    }

    method Poll(script: Script) returns (rescheduled: bool)
      requires CoherentOrLeaking(View()) && Enabled(View(), PollReady) && UserScript(script, id)
      requires !View().flags.scheduled && Legal(View(), PolledTrace(View(), script))
      modifies Repr()
      ensures Agrees(View(), Exec(old(View()), PolledTrace(old(View()), script)))
      ensures !aborted ==> rescheduled == WokenDuringPoll(old(View()), script)
      ensures !aborted ==> queue.entries == PolledEntries(old(queue.entries), id, old(View()), script)
    {
      rescheduled := false;
      PolledTraceParts(View(), script);
      PolledOutcome(queue.entries, id, View(), script);
      UserCodeInRun(script.pollOps);
      if aborted {
        return;
      }
      if script.ready {
        FinishReady(script);
      } else {
        rescheduled := FinishPending(script);
      }
    }

    // `poll` returned Ready: the future goes, the output is written, the awaiter is notified.
    method FinishReady(script: Script)
      requires CoherentOrLeaking(View()) && Enabled(View(), PollReady) && UserScript(script, id)
      requires Legal(View(), ReadyTrace(script))
      modifies Repr()
      ensures Agrees(View(), Exec(old(View()), ReadyTrace(script)))
      ensures !aborted ==> queue.entries == ClosingEntries(old(queue.entries), script)
    {
      ghost var start := View();
      ghost var ended := script.Notified() + [Finish];
      ExecFirst(start, PollReady, script.Destructor() + ([CompleteReady] + ended));
      StepIsCoherentOrLeaking(start, PollReady);
      DropFuture(ReadyDrop);
      ghost var dropped := View();
      ExecAppend(dropped, script.Destructor(), [CompleteReady] + ended);
      UserCodeInRun(script.destructorOps);
      if !aborted {
        WriteOutput(script);
      }
    }

    method WriteOutput(script: Script)
      requires CoherentOrLeaking(View()) && Enabled(View(), CompleteReady) && UserScript(script, id)
      requires Legal(View(), [CompleteReady] + (script.Notified() + [Finish]))
      modifies Repr()
      ensures Agrees(View(), Exec(old(View()), [CompleteReady] + (script.Notified() + [Finish])))
      ensures !aborted ==> queue.entries == OthersPushed(old(queue.entries), script.notifiedOps)
    {
      ghost var ready := View();
      ghost var ended := script.Notified() + [Finish];
      EnabledIsLive(ready, CompleteReady);
      StepIsCoherentOrLeaking(ready, CompleteReady);
      ExecFirst(ready, CompleteReady, ended);
      Complete();
      EndRun(script);
    }

    // The output is written; a task that was closed meanwhile reads it back to drop it.
    method Complete()
      requires Live()
      modifies Repr()
      ensures View() == Completed(old(View())) && queue.entries == old(queue.entries)
    {
      var out := header.state.TransitionToCompleted();
      ledger := ledger.(produced := ledger.produced + 1);
      if out.action == CompletedClosed {
        ReadOutput();
      }
      NotifyAwaiter(None);
      stage := Finishing;
    }

    // `poll` returned Pending: the task goes back to sleep, back to the queue, or is closed.
    method FinishPending(script: Script) returns (rescheduled: bool)
      requires CoherentOrLeaking(View()) && Enabled(View(), PollPending) && UserScript(script, id)
      requires Legal(View(), PendingTrace(View(), script))
      modifies Repr()
      ensures Agrees(View(), Exec(old(View()), PendingTrace(old(View()), script)))
      ensures !aborted ==> rescheduled == (old(View()).flags.scheduled && !old(View()).flags.closed)
      ensures !aborted ==>
        && (old(View()).flags.closed ==> queue.entries == ClosingEntries(old(queue.entries), script))
        && (!old(View()).flags.closed ==>
             queue.entries == if rescheduled then old(queue.entries) + [id] else old(queue.entries))
    {
      ghost var start := View();
      EnabledIsLive(start, PollPending);
      StepIsCoherentOrLeaking(start, PollPending);
      ghost var idle := Next(start, PollPending);
      ExecFirst(start, PollPending, if idle.held.stage == ClosedDrop then ClosingTrace(script) else []);
      var closed;
      rescheduled, closed := GoIdle();
      if closed {
        CloseRun(script);
      }
    }

    method GoIdle() returns (rescheduled: bool, closed: bool)
      requires Live() && stage == Polling
      modifies Repr()
      ensures Agrees(View(), Pending(old(View())))
      ensures !aborted ==>
        closed == (stage == ClosedDrop) && rescheduled == (old(View()).flags.scheduled && !old(View()).flags.closed)
      ensures aborted ==> !closed
      ensures !aborted ==> closed == old(View()).flags.closed
      ensures !aborted ==> queue.entries == if rescheduled then old(queue.entries) + [id] else old(queue.entries)
    {
      rescheduled, closed := false, false;
      var action := LeaveRunning();
      match action {
        case IdleClosed =>
          DropFuture(ClosedDrop);
          closed := true;
        case IdleSchedule =>
          Reschedule();
          rescheduled := true;
        case IdleDoNothing =>
          DropTask();
      }
    }

    method LeaveRunning() returns (action: ToIdle)
      requires Live()
      modifies this`assertionFailed, header.state
      ensures var t := TransitionToIdle(old(View()).flags);
        action == t.outcome.action
        && View() == TaskLifecycle.Check(old(View()).(flags := t.next), t.outcome.assertionsHold)
    {
      var out := header.state.TransitionToIdle();
      Check(out.assertionsHold);
      action := out.action;
    }

    method Reschedule()
      requires Live()
      modifies Repr()
      ensures var c := TaskLifecycle.Schedule(old(View()));
        Agrees(View(), if c.faults.aborted then c else TaskLifecycle.DropTask(c))
      ensures !aborted ==> queue.entries == old(queue.entries) + [id]
    {
      Schedule(false);
      if !aborted {
        DropTask();
      }
    }

    // The task is closed: its destructor is about to run, then the awaiter is notified.
    method CloseRun(script: Script)
      requires CoherentOrLeaking(View()) && Enabled(View(), NotifyClosed) && UserScript(script, id)
      requires Legal(View(), ClosingTrace(script))
      modifies Repr()
      ensures Agrees(View(), Exec(old(View()), ClosingTrace(script)))
      ensures !aborted ==> queue.entries == ClosingEntries(old(queue.entries), script)
    {
      ExecAppend(View(), script.Destructor(), [NotifyClosed] + (script.Notified() + [Finish]));
      UserCodeInRun(script.destructorOps);
      if !aborted {
        NotifyAndEnd(script);
      }
    }

    method NotifyAndEnd(script: Script)
      requires CoherentOrLeaking(View()) && Enabled(View(), NotifyClosed) && UserScript(script, id)
      requires Legal(View(), [NotifyClosed] + (script.Notified() + [Finish]))
      modifies Repr()
      ensures Agrees(View(), Exec(old(View()), [NotifyClosed] + (script.Notified() + [Finish])))
      ensures !aborted ==> queue.entries == OthersPushed(old(queue.entries), script.notifiedOps)
    {
      ghost var dropped := View();
      EnabledIsLive(dropped, NotifyClosed);
      StepIsCoherentOrLeaking(dropped, NotifyClosed);
      ExecFirst(dropped, NotifyClosed, script.Notified() + [Finish]);
      NotifyAwaiter(None);
      stage := Finishing;
      EndRun(script);
    }

    method EndRun(script: Script)
      requires CoherentOrLeaking(View()) && Enabled(View(), Finish) && UserScript(script, id)
      requires Legal(View(), script.Notified() + [Finish])
      modifies Repr()
      ensures Agrees(View(), Exec(old(View()), script.Notified() + [Finish]))
      ensures !aborted ==> queue.entries == OthersPushed(old(queue.entries), script.notifiedOps)
    {
      ghost var start := View();
      ExecAppend(start, script.Notified(), [Finish]);
      UserCodeInRun(script.notifiedOps);
      if aborted {
        return;
      }
      ghost var ended := View();
      EnabledIsLive(ended, Finish);
      ExecFirst(ended, Finish, []);
      assert [Finish] + [] == [Finish];
      DropTask();
    }
  }

  // ---------- user code during a run ----------

  lemma {:induction false} OnlyOthersInRun(q: seq<nat>, id: nat, s: Task, ops: seq<UserOp>)
    requires CoherentOrLeaking(s) && s.held.stage != NotRunning && UserOps(ops, id) && Legal(s, OwnSteps(ops))
    requires !Exec(s, OwnSteps(ops)).faults.aborted
    ensures EntriesAfter(q, id, s, ops) == OthersPushed(q, ops)
    decreases |ops|
  {
    if ops != [] && !s.faults.aborted {
      OwnFirst(ops);
      match ops[0]
      case Own(step) =>
        StepIsCoherentOrLeaking(s, step);
        UserStepKeepsStage(s, step);
        if !Next(s, step).faults.aborted {
          NothingQueuedInRun(s, step);
          OnlyOthersInRun(q, id, Next(s, step), ops[1..]);
        }
      case Other(entry, front) =>
        OnlyOthersInRun(Queued(q, entry, front), id, s, ops[1..]);
    }
  }

  lemma NothingQueuedInRun(s: Task, step: Step)
    requires CoherentOrLeaking(s) && s.held.stage != NotRunning && Enabled(s, step) && ByUser(step)
    requires CoherentOrLeaking(Next(s, step)) && !Next(s, step).faults.aborted
    requires Next(s, step).held.stage == s.held.stage
    ensures Next(s, step).held.queued <= s.held.queued && !(s.flags.needStart && !s.flags.closed)
  {
    if !Coherent(s) {
      NothingQueuedWhenClosed(s, step);
    }
  }

  lemma NothingQueuedWhenClosed(s: Task, step: Step)
    requires Safe(s) && s.flags.closed && !s.flags.needStart && Enabled(s, step) && ByUser(step)
    ensures Next(s, step).held.queued <= s.held.queued
  {
    match step
    case HandlePoll(_) =>
    case HandleDrop =>
    case Cancel =>
    case WakeByVal => assert DoWake(s) == s;
    case _ =>
  }

  // In a poll that nobody closes, exactly the wakes of user code set SCHEDULED.
  lemma {:induction false} ScheduledByWakes(s: Task, steps: seq<Step>)
    requires CoherentOrLeaking(s) && s.held.stage == Polling && UserSteps(steps) && Legal(s, steps)
    requires !Exec(s, steps).faults.aborted
    ensures !Exec(s, steps).flags.closed ==> (Exec(s, steps).flags.scheduled <==> s.flags.scheduled || HasWake(steps))
    decreases |steps|
  {
    if !Over(s, steps) {
      var step, t := steps[0], Next(s, steps[0]);
      StepIsCoherentOrLeaking(s, step);
      UserStepKeepsStage(s, step);
      if !t.faults.aborted {
        RecordedStep(s, step);
        ScheduledByWakes(t, steps[1..]);
        HasWakeFirst(steps);
        if t.flags.closed {
          NoPollAfterClose(t, steps[1..]);
        }
      }
    }
  }

  // Whether and how the task is queued again shows in the flags at the end of the poll.
  lemma {:induction false} PolledOutcome(q: seq<nat>, id: nat, s: Task, script: Script)
    requires CoherentOrLeaking(s) && s.held.stage == Polling && UserScript(script, id)
    requires !s.flags.scheduled && Legal(s, script.Poll())
    ensures var t := Exec(s, script.Poll());
      !t.faults.aborted ==>
        && (WokenDuringPoll(s, script) <==> !script.ready && t.flags.scheduled && !t.flags.closed)
        && PolledEntries(q, id, s, script)
           == if script.ready || t.flags.closed then ClosingEntries(OthersPushed(q, script.pollOps), script)
              else if t.flags.scheduled then OthersPushed(q, script.pollOps) + [id]
              else OthersPushed(q, script.pollOps)
  {
    if !Exec(s, script.Poll()).faults.aborted {
      ScheduledByWakes(s, script.Poll());
    }
  }

  lemma {:induction false} HasWakeFirst(steps: seq<Step>)
    requires steps != []
    ensures HasWake(steps) <==> steps[0].WakeByRef? || steps[0].WakeByVal? || HasWake(steps[1..])
  {
    if HasWake(steps[1..]) {
      var i :| 0 <= i < |steps[1..]| && (steps[1..][i].WakeByRef? || steps[1..][i].WakeByVal?);
      assert steps[i + 1] == steps[1..][i];
    }
    if HasWake(steps) && !steps[0].WakeByRef? && !steps[0].WakeByVal? {
      var i :| 0 <= i < |steps| && (steps[i].WakeByRef? || steps[i].WakeByVal?);
      assert steps[1..][i - 1] == steps[i];
    }
  }

  // User code does not move a run from one stage to the next.
  lemma {:induction false} UserKeepsStage(s: Task, steps: seq<Step>)
    requires Legal(s, steps) && UserSteps(steps)
    ensures Exec(s, steps).held.stage == s.held.stage
    decreases |steps|
  {
    if !Over(s, steps) {
      UserStepKeepsStage(s, steps[0]);
      UserKeepsStage(Next(s, steps[0]), steps[1..]);
    }
  }

  lemma UserStepKeepsStage(s: Task, step: Step)
    requires Enabled(s, step) && ByUser(step)
    ensures Next(s, step).held.stage == s.held.stage
  {
    match step
    case HandlePoll(_) =>
    case HandleDrop =>
    case Cancel =>
    case _ => WakerStepKeepsStage(s, step);
  }

  lemma WakerStepKeepsStage(s: Task, step: Step)
    requires Enabled(s, step) && (step.CloneWaker? || step.WakeByRef? || step.WakeByVal? || step.DropOneWaker?)
    ensures Next(s, step).held.stage == s.held.stage
  {
    if step.WakeByVal? {
      assert DoWake(s).held.stage == s.held.stage;
    }
  }

  lemma {:induction false} PolledTraceParts(s: Task, script: Script)
    requires Enabled(s, PollReady) && UserSteps(script.Poll()) && Legal(s, PolledTrace(s, script))
    ensures Legal(s, script.Poll()) && Exec(s, script.Poll()).held.stage == Polling
    ensures var t := Exec(s, script.Poll());
      if t.faults.aborted then Exec(s, PolledTrace(s, script)) == t
      else
        var rest := if script.ready then ReadyTrace(script) else PendingTrace(t, script);
        Legal(t, rest) && Exec(s, PolledTrace(s, script)) == Exec(t, rest)
  {
    if Legal(s, script.Poll()) {
      UserKeepsStage(s, script.Poll());
      var t := Exec(s, script.Poll());
      if !t.faults.aborted {
        ExecAppend(s, script.Poll(), if script.ready then ReadyTrace(script) else PendingTrace(t, script));
      }
    }
  }

  // ---------- the order of a run ----------

  // A run goes to its end, and its four orders are these: the future's destructor runs after its
  // last poll and before the awaiter is notified, and the reference of the run goes last.
  lemma {:induction false} RunOrder(s: Task, script: Script, id: nat)
    requires Enabled(s, Pop) && UserScript(script, id) && Legal(s, RunTrace(s, script))
    requires !Exec(s, RunTrace(s, script)).faults.aborted
    ensures RunTrace(s, script) == [Pop] + if s.flags.closed then ClosingOrder(script) else PolledOrder(Next(s, Pop), script)
    ensures Exec(s, RunTrace(s, script)).held.stage == NotRunning
  {
    var t := Next(s, Pop);
    if s.flags.closed {
      ExecFirst(s, Pop, ClosingTrace(script));
      ClosingEnds(t, script, id);
    } else {
      ExecFirst(s, Pop, PolledTrace(t, script));
      PolledEnds(t, script, id);
    }
  }

  function ClosingOrder(script: Script): seq<Step> {
    script.Destructor() + [NotifyClosed] + script.Notified() + [Finish]
  }

  function PolledOrder(s: Task, script: Script): seq<Step> {
    if script.ready then script.Poll() + [PollReady] + script.Destructor() + [CompleteReady] + script.Notified() + [Finish]
    else if ClosedDuringPoll(s, script) then script.Poll() + [PollPending] + ClosingOrder(script)
    else script.Poll() + [PollPending]
  }

  lemma {:induction false} PolledEnds(s: Task, script: Script, id: nat)
    requires s.held.stage == Polling && UserScript(script, id) && Legal(s, PolledTrace(s, script))
    requires !s.faults.aborted && !Exec(s, PolledTrace(s, script)).faults.aborted
    ensures PolledTrace(s, script) == PolledOrder(s, script)
    ensures Exec(s, PolledTrace(s, script)).held.stage == NotRunning
  {
    PolledTraceParts(s, script);
    if script.ready {
      PolledReady(s, script, id);
    } else {
      PolledPending(s, script, id);
    }
  }

  lemma {:induction false} PolledReady(s: Task, script: Script, id: nat)
    requires Legal(s, script.Poll()) && script.ready
    requires var t := Exec(s, script.Poll());
      t.held.stage == Polling && Legal(t, ReadyTrace(script)) && !Exec(t, ReadyTrace(script)).faults.aborted
    requires UserScript(script, id)
    ensures script.Poll() + ReadyTrace(script) == PolledOrder(s, script)
    ensures Exec(Exec(s, script.Poll()), ReadyTrace(script)).held.stage == NotRunning
  {
    ReadyEnds(Exec(s, script.Poll()), script, id);
  }

  lemma {:induction false} PolledPending(s: Task, script: Script, id: nat)
    requires Legal(s, script.Poll()) && !script.ready && Enabled(Exec(s, script.Poll()), PollPending)
    requires var t := Exec(s, script.Poll());
      Legal(t, PendingTrace(t, script)) && !Exec(t, PendingTrace(t, script)).faults.aborted
    requires UserScript(script, id)
    ensures var t := Exec(s, script.Poll());
      script.Poll() + PendingTrace(t, script) == PolledOrder(s, script)
      && Exec(t, PendingTrace(t, script)).held.stage == NotRunning
  {
    PendingEnds(Exec(s, script.Poll()), script, id);
  }

  lemma {:induction false} ClosingEnds(s: Task, script: Script, id: nat)
    requires s.held.stage == ClosedDrop && UserScript(script, id) && Legal(s, ClosingTrace(script))
    requires !Exec(s, ClosingTrace(script)).faults.aborted
    ensures ClosingTrace(script) == ClosingOrder(script)
    ensures Exec(s, ClosingTrace(script)).held.stage == NotRunning
  {
    var steps := script.Destructor() + ([NotifyClosed] + script.Notified());
    assert ClosingTrace(script) == steps + [Finish];
    EndsNotRunning(s, steps);
  }

  lemma {:induction false} ReadyEnds(s: Task, script: Script, id: nat)
    requires s.held.stage == Polling && UserScript(script, id) && Legal(s, ReadyTrace(script))
    requires !Exec(s, ReadyTrace(script)).faults.aborted
    ensures ReadyTrace(script) == [PollReady] + script.Destructor() + [CompleteReady] + script.Notified() + [Finish]
    ensures Exec(s, ReadyTrace(script)).held.stage == NotRunning
  {
    var steps := [PollReady] + (script.Destructor() + ([CompleteReady] + script.Notified()));
    assert ReadyTrace(script) == steps + [Finish];
    EndsNotRunning(s, steps);
  }

  lemma {:induction false} PendingEnds(s: Task, script: Script, id: nat)
    requires s.held.stage == Polling && UserScript(script, id) && Enabled(s, PollPending)
    requires Legal(s, PendingTrace(s, script)) && !Exec(s, PendingTrace(s, script)).faults.aborted
    ensures PendingTrace(s, script)
         == [PollPending] + if s.flags.closed then ClosingOrder(script) else []
    ensures Exec(s, PendingTrace(s, script)).held.stage == NotRunning
  {
    var t := Next(s, PollPending);
    PendingStage(s);
    if s.flags.closed {
      ExecFirst(s, PollPending, ClosingTrace(script));
      ClosingEnds(t, script, id);
    } else {
      ExecFirst(s, PollPending, []);
      assert [PollPending] + [] == [PollPending];
    }
  }

  lemma PendingStage(s: Task)
    requires Enabled(s, PollPending)
    ensures Pending(s).held.stage == ClosedDrop <==> s.flags.closed
    ensures !Pending(s).faults.aborted && !s.flags.closed ==> Pending(s).held.stage == NotRunning
  {}

  lemma {:induction false} EndsNotRunning(s: Task, steps: seq<Step>)
    requires Legal(s, steps + [Finish]) && !Exec(s, steps + [Finish]).faults.aborted
    ensures Exec(s, steps + [Finish]).held.stage == NotRunning
  {
    ExecAppend(s, steps, [Finish]);
    var t := Exec(s, steps);
    ExecFirst(t, Finish, []);
    assert [Finish] + [] == [Finish];
  }
}
