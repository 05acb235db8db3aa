// The lifecycle of a task as the runtime documents it: five flags and a reference count,
// with every transition stated on that abstract view.  Module TaskState proves that the
// packed word of src/task/state.rs implements these transitions.
module TaskFlags {
  // Largest reference count the packed word can hold.
  const REF_COUNT_MAX: nat := 0x7ff_ffff_ffff_ffff
  // Smallest count at which `incr_ref` aborts the process (the word exceeds `isize::MAX`).
  const REF_COUNT_ABORT: nat := 0x400_0000_0000_0000

  datatype Flags = Flags(
    running: bool,
    completed: bool,
    closed: bool,
    scheduled: bool,
    needStart: bool,
    refs: nat)

  const INITIAL := Flags(false, false, false, false, true, 1)

  // How a transition ends.  `assertionsHold` tells whether every debug assertion on the path
  // held; a failed debug assertion does not stop the transition.
  datatype Outcome<A> =
    | Returned(action: A, assertionsHold: bool)
    | Aborted
    | Unreachable

  datatype Transition<A> = Transition(next: Flags, outcome: Outcome<A>)

  datatype ToRunning = RunClosed | Running
  datatype ToIdle = IdleDoNothing | IdleClosed | IdleSchedule
  datatype ToScheduled = WakeDoNothing | Submit
  datatype ToCompleted = CompletedClosed | CompletedDoNothing
  datatype ToClosed = CloseDoNothing | Close(schedule: bool)
  datatype DropWakerAction = WakerDestroy | WakerSchedule | WakerDoNothing
  datatype DropAction = HandleDestroy | DropOutput(destroy: bool) | HandleSchedule | HandleDoNothing
  datatype PollAction = Start | Register | Complete(closed: bool)

  function TransitionToRunning(f: Flags): Transition<ToRunning> {
    var g := f.(scheduled := false);
    if f.closed then Transition(g, Returned(RunClosed, !f.needStart))
    else Transition(g.(running := true), Returned(Running, !f.needStart))
  }

  function TransitionToIdle(f: Flags): Transition<ToIdle> {
    var g := f.(running := false);
    if f.closed then Transition(g.(scheduled := false), Returned(IdleClosed, f.running))
    else Transition(g, Returned(if f.scheduled then IdleSchedule else IdleDoNothing, f.running))
  }

  function TransitionToScheduled(f: Flags): Transition<ToScheduled> {
    if f.completed || f.closed || f.scheduled then Transition(f, Returned(WakeDoNothing, true))
    else Transition(f.(scheduled := true), Returned(if f.running then WakeDoNothing else Submit, true))
  }

  function TransitionToCompleted(f: Flags): Transition<ToCompleted> {
    var g := f.(running := false, scheduled := false, completed := true);
    if f.refs == 0 || f.closed then Transition(g.(closed := true), Returned(CompletedClosed, true))
    else Transition(g, Returned(CompletedDoNothing, true))
  }

  function TransitionToClosed(f: Flags): Transition<ToClosed> {
    if f.needStart then Transition(f.(closed := true), Returned(CloseDoNothing, true))
    else if f.completed || f.closed then Transition(f, Returned(CloseDoNothing, true))
    else if !f.scheduled && !f.running then
      if f.refs == REF_COUNT_MAX then Transition(f, Aborted)
      else Transition(f.(scheduled := true, closed := true, refs := f.refs + 1), Returned(Close(true), true))
    else Transition(f.(closed := true), Returned(Close(false), true))
  }

  // Subtracting a reference from a count of zero wraps; a debug assertion guards against it.
  function Decremented(f: Flags): Flags {
    f.(refs := if f.refs == 0 then REF_COUNT_MAX else f.refs - 1)
  }

  function DropJoinHandle(f: Flags): Transition<DropAction> {
    if f == INITIAL then Transition(f, Returned(HandleDestroy, true))
    else
      var g := Decremented(f);
      var counted := f.refs >= 1;
      var quiet := !f.scheduled && !f.running;
      if f.completed && !f.closed then
        Transition(g.(closed := true), Returned(DropOutput(g.refs == 0), counted && quiet))
      else if g.refs == 0 && !f.closed then
        // The state is masked, not assigned: `CLOSED` is not set here.
        Transition(Flags(false, false, false, f.scheduled, false, 1), Returned(HandleSchedule, counted && quiet))
      else if g.refs == 0 then Transition(g, Returned(HandleDestroy, counted && quiet))
      else if !f.closed then Transition(g.(closed := true), Returned(HandleDoNothing, counted && !quiet))
      else Transition(f, Unreachable)
  }

  function PollJoinHandle(f: Flags): Transition<PollAction> {
    if f.closed then
      if f.scheduled || f.running then
        Transition(f, Returned(Register, !f.completed && !f.needStart))
      else
        Transition(f.(needStart := false), Returned(Complete(true), f.completed || f.needStart))
    else if f.needStart then Transition(f.(needStart := false), Returned(Start, true))
    else if !f.completed then Transition(f, Returned(Register, true))
    else Transition(f.(closed := true), Returned(Complete(false), true))
  }

  function IncrRef(f: Flags): Transition<()> {
    if f.refs >= REF_COUNT_ABORT then Transition(f, Aborted)
    else Transition(f.(refs := f.refs + 1), Returned((), true))
  }

  function DropWakerRef(f: Flags): Transition<DropWakerAction> {
    var g := Decremented(f);
    if g.refs > 0 then Transition(g, Returned(WakerDoNothing, f.refs >= 1))
    else if f.completed || f.closed then Transition(g, Returned(WakerDestroy, true))
    else
      // The state is masked, not assigned: neither flag is newly set here.
      Transition(Flags(false, false, false, f.scheduled, false, 0),
                 Returned(if f.scheduled then WakerDoNothing else WakerSchedule, true))
  }

  function DecrRef(f: Flags): Transition<bool> {
    var g := Decremented(f);
    Transition(g, Returned(g.refs == 0, f.refs >= 1))
  }
}
