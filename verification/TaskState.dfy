// The packed state word of src/task/state.rs.  Each transition loads the word into a
// snapshot, changes bits of the snapshot and stores it back; its contract says that this
// commutes with unpacking the word into five flags and a reference count.
module TaskState {
  import opened MachineWord
  import opened TaskFlags

  const RUNNING: Word := 1
  const COMPLETED: Word := 2
  const CLOSED: Word := 4
  const SCHEDULED: Word := 8
  const NEED_START: Word := 16
  const REF_COUNT_MASK: Word := MAX - 31
  const REF_COUNT_SHIFT: nat := 5
  const REF_MAX: Word := 0x7ff_ffff_ffff_ffff
  const REF_ONE: Word := 32
  const INITIAL_STATE: Word := 48
  const ISIZE_MAX: Word := 0x7fff_ffff_ffff_ffff

  // The flags are the five lowest bits, the count starts above them, and the signed maximum is
  // the largest word without the highest bit.
  lemma WordShape()
    ensures RUNNING == Pow2(0) && COMPLETED == Pow2(1) && CLOSED == Pow2(2) && SCHEDULED == Pow2(3)
    ensures NEED_START == Pow2(4) && REF_ONE == Pow2(5) == Pow2(REF_COUNT_SHIFT)
    ensures INITIAL_STATE == NEED_START + REF_ONE
    ensures ISIZE_MAX == Pow2(63) - 1 && REF_COUNT_ABORT == Pow2(58) && REF_COUNT_MAX == REF_MAX == Pow2(59) - 1
    ensures REF_COUNT_MASK == MODULUS - Pow2(5)
  {
    Pow2Word();
    var n := 58;
    assert Pow2(n + 6) == 2 * Pow2(n + 5) == 4 * Pow2(n + 4) == 8 * Pow2(n + 3) == 16 * Pow2(n + 2);
    assert Pow2(n + 2) == 2 * Pow2(n + 1) == 4 * Pow2(n);
  }

  // ---------- the unpacked view of a word ----------

  function Unpack(w: nat): Flags {
    Flags(Odd(w), Odd(w / 2), Odd(w / 4), Odd(w / 8), Odd(w / 16), w / 32)
  }

  predicate Odd(w: nat) {
    w % 2 == 1
  }

  // Appends a low-order bit.
  function Cons(low: bool, high: nat): nat {
    (if low then 1 else 0) + 2 * high
  }

  function Pack(f: Flags): nat {
    Cons(f.running, Cons(f.completed, Cons(f.closed, Cons(f.scheduled, Cons(f.needStart, f.refs)))))
  }

  lemma PackUnpack(w: nat)
    ensures Pack(Unpack(w)) == w
  {
    Halve(w / 16, w / 32);
    Halve(w / 8, w / 16);
    Halve(w / 4, w / 8);
    Halve(w / 2, w / 4);
    Halve(w, w / 2);
  }

  lemma Halve(w: nat, half: nat)
    requires half == w / 2
    ensures Cons(Odd(w), half) == w
  {}

  lemma UnpackPack(f: Flags)
    ensures Unpack(Pack(f)) == f
  {
    var w4 := Cons(f.needStart, f.refs);
    var w3 := Cons(f.scheduled, w4);
    var w2 := Cons(f.closed, w3);
    var w1 := Cons(f.completed, w2);
    Halves(Pack(f));
    Uncons(f.running, w1);
    Uncons(f.completed, w2);
    Uncons(f.closed, w3);
    Uncons(f.scheduled, w4);
    Uncons(f.needStart, f.refs);
  }

  lemma Uncons(low: bool, high: nat)
    ensures Odd(Cons(low, high)) == low && Cons(low, high) / 2 == high
  {}

  lemma Halves(w: nat)
    ensures w / 2 / 2 == w / 4 && w / 4 / 2 == w / 8 && w / 8 / 2 == w / 16 && w / 16 / 2 == w / 32
  {}

  lemma PackBound(f: Flags)
    ensures Pack(f) < MODULUS <==> f.refs <= REF_COUNT_MAX
    ensures Pack(f) > ISIZE_MAX <==> f.refs >= REF_COUNT_ABORT
  {}

  // ---------- bit operations on the unpacked view ----------

  const NO_FLAGS := Flags(false, false, false, false, false, 0)
  const ALL_FLAGS := Flags(true, true, true, true, true, REF_COUNT_MAX)

  function OrFlags(f: Flags, g: Flags): Flags {
    Flags(f.running || g.running, f.completed || g.completed, f.closed || g.closed,
          f.scheduled || g.scheduled, f.needStart || g.needStart, Or(f.refs, g.refs))
  }

  function AndFlags(f: Flags, g: Flags): Flags {
    Flags(f.running && g.running, f.completed && g.completed, f.closed && g.closed,
          f.scheduled && g.scheduled, f.needStart && g.needStart, And(f.refs, g.refs))
  }

  // All flags but those of `g`, with every count bit set.
  function NotFlags(g: Flags): Flags {
    Flags(!g.running, !g.completed, !g.closed, !g.scheduled, !g.needStart, REF_COUNT_MAX)
  }

  lemma {:induction false} OrCons(a: bool, x: nat, b: bool, y: nat)
    ensures Or(Cons(a, x), Cons(b, y)) == Cons(a || b, Or(x, y))
  {
    OrHalf(Cons(a, x), Cons(b, y));
    assert Cons(a, x) / 2 == x && Cons(b, y) / 2 == y;
  }

  lemma {:induction false} AndCons(a: bool, x: nat, b: bool, y: nat)
    ensures And(Cons(a, x), Cons(b, y)) == Cons(a && b, And(x, y))
  {
    AndHalf(Cons(a, x), Cons(b, y));
    assert Cons(a, x) / 2 == x && Cons(b, y) / 2 == y;
  }

  lemma {:induction false} OrPack(f: Flags, g: Flags)
    ensures Or(Pack(f), Pack(g)) == Pack(OrFlags(f, g))
  {
    var f4, g4 := Cons(f.needStart, f.refs), Cons(g.needStart, g.refs);
    var f3, g3 := Cons(f.scheduled, f4), Cons(g.scheduled, g4);
    var f2, g2 := Cons(f.closed, f3), Cons(g.closed, g3);
    OrCons(f.needStart, f.refs, g.needStart, g.refs);
    OrCons(f.scheduled, f4, g.scheduled, g4);
    OrCons(f.closed, f3, g.closed, g3);
    OrCons(f.completed, f2, g.completed, g2);
    OrCons(f.running, Cons(f.completed, f2), g.running, Cons(g.completed, g2));
  }

  lemma {:induction false} AndPack(f: Flags, g: Flags)
    ensures And(Pack(f), Pack(g)) == Pack(AndFlags(f, g))
  {
    var f4, g4 := Cons(f.needStart, f.refs), Cons(g.needStart, g.refs);
    var f3, g3 := Cons(f.scheduled, f4), Cons(g.scheduled, g4);
    var f2, g2 := Cons(f.closed, f3), Cons(g.closed, g3);
    AndCons(f.needStart, f.refs, g.needStart, g.refs);
    AndCons(f.scheduled, f4, g.scheduled, g4);
    AndCons(f.closed, f3, g.closed, g3);
    AndCons(f.completed, f2, g.completed, g2);
    AndCons(f.running, Cons(f.completed, f2), g.running, Cons(g.completed, g2));
  }

  lemma {:induction false} OrZero(x: nat)
    ensures Or(x, 0) == x
  {
    if x > 0 {
      OrZero(x / 2);
    }
  }

  lemma {:induction false} AndRefMax(x: nat)
    requires x <= REF_COUNT_MAX
    ensures And(x, REF_COUNT_MAX) == x
  {
    Pow2Word();
    Pow2Add(5, 59);
    assert Pow2(5) == 32;
    AndAllBits(x, 59);
  }

  // Setting flags: the mask `Pack(g)` has no count.
  lemma {:induction false} SetFlags(w: Word, g: Flags)
    requires g.refs == 0
    ensures Or(w, Pack(g)) < MODULUS
    ensures Unpack(Or(w, Pack(g))) == OrFlags(Unpack(w), g).(refs := Unpack(w).refs)
  {
    var f := Unpack(w);
    PackUnpack(w);
    PackBound(f);
    OrPack(f, g);
    OrZero(f.refs);
    UnpackPack(OrFlags(f, g));
    PackBound(OrFlags(f, g));
  }

  lemma NotPack(g: Flags)
    requires g.refs == 0
    ensures Pack(g) < MODULUS
    ensures Not(Pack(g)) == Pack(NotFlags(g))
  {}

  // Clearing flags with an inverted mask.
  lemma {:induction false} ClearFlags(w: Word, g: Flags)
    requires g.refs == 0
    ensures Pack(g) < MODULUS
    ensures Unpack(And(w, Not(Pack(g)))) == AndFlags(Unpack(w), NotFlags(g)).(refs := Unpack(w).refs)
  {
    var f := Unpack(w);
    PackUnpack(w);
    PackBound(f);
    NotPack(g);
    AndPack(f, NotFlags(g));
    AndRefMax(f.refs);
    UnpackPack(AndFlags(f, NotFlags(g)));
  }

  // Testing flags.
  lemma {:induction false} TestFlags(w: Word, g: Flags)
    requires g.refs == 0
    ensures And(w, Pack(g)) == Pack(g) <==> AndFlags(Unpack(w), g) == g
  {
    var f := Unpack(w);
    PackUnpack(w);
    AndPack(f, g);
    UnpackPack(g);
    UnpackPack(AndFlags(f, g));
  }

  // Extracting the reference count.
  lemma {:induction false} RefCountBits(w: Word)
    ensures Shr(And(w, REF_COUNT_MASK), REF_COUNT_SHIFT) == Unpack(w).refs
  {
    var f := Unpack(w);
    PackUnpack(w);
    PackBound(f);
    var mask := NO_FLAGS.(refs := REF_COUNT_MAX);
    assert Pack(mask) == REF_COUNT_MASK;
    AndPack(f, mask);
    AndRefMax(f.refs);
    UnpackPack(AndFlags(f, mask));
    ShrIsDivision(And(w, REF_COUNT_MASK), 5);
    assert Pow2(5) == 32;
  }

  lemma UnpackBound(w: Word)
    ensures Unpack(w).refs <= REF_COUNT_MAX
    ensures w > ISIZE_MAX <==> Unpack(w).refs >= REF_COUNT_ABORT
  {}

  // Adding or subtracting one reference leaves every flag alone and never wraps.
  lemma AddRef(w: Word)
    requires Unpack(w).refs < REF_COUNT_MAX
    ensures w + REF_ONE < MODULUS && WrappingAdd(w, REF_ONE) == w + REF_ONE
    ensures Unpack(w + REF_ONE) == Unpack(w).(refs := Unpack(w).refs + 1)
  {
    var f := Unpack(w);
    var g := f.(refs := f.refs + 1);
    PackUnpack(w);
    PackShift(f, g);
    PackBound(g);
    UnpackPack(g);
  }

  lemma SubRef(w: Word)
    ensures Unpack(WrappingSub(w, REF_ONE)) == Decremented(Unpack(w))
  {
    var f := Unpack(w);
    var g := Decremented(f);
    PackUnpack(w);
    PackShift(f, g);
    Wraps(w, Pack(g));
    UnpackPack(g);
  }

  lemma PackShift(f: Flags, g: Flags)
    requires g == f.(refs := g.refs)
    ensures Pack(g) - Pack(f) == 32 * (g.refs - f.refs)
  {}

  lemma Wraps(w: Word, r: int)
    requires (w >= 32 && r == w - 32) || (w < 32 && r == w - 32 + MODULUS)
    ensures r == WrappingSub(w, REF_ONE)
  {}

  // The mask that `set_state` applies first has all flags and the low count bits set.
  const LOW_BITS := ALL_FLAGS.(refs := 0x3f_ffff_ffff_ffff)

  // `set_state` intersects the word with the requested state, for any word and any state.
  lemma {:induction false} MaskAnyState(w: Word, state: Word)
    ensures Unpack(And(And(w, REF_MAX), state)) == AndFlags(AndFlags(Unpack(w), LOW_BITS), Unpack(state))
  {
    var f, g := Unpack(w), Unpack(state);
    PackUnpack(w);
    PackUnpack(state);
    assert Pack(LOW_BITS) == REF_MAX;
    AndPack(f, LOW_BITS);
    AndPack(AndFlags(f, LOW_BITS), g);
    UnpackPack(AndFlags(AndFlags(f, LOW_BITS), g));
  }

  // The state its callers request: a flag survives only if it was set already, and the count is lost.
  lemma {:induction false} MaskState(w: Word)
    ensures Or(SCHEDULED, CLOSED) < MODULUS
    ensures Unpack(And(And(w, REF_MAX), Or(SCHEDULED, CLOSED)))
         == NO_FLAGS.(closed := Unpack(w).closed, scheduled := Unpack(w).scheduled)
  {
    var s, c := NO_FLAGS.(scheduled := true), NO_FLAGS.(closed := true);
    assert Pack(s) == SCHEDULED && Pack(c) == CLOSED;
    OrPack(s, c);
    OrZero(0);
    UnpackPack(OrFlags(s, c));
    MaskAnyState(w, Or(SCHEDULED, CLOSED));
  }

  // "Sets the state but keeps the ref count" is true of `set_state` if and only if there is no
  // count to keep and every requested flag is set already.
  lemma {:induction false} MaskKeepsCountExactly(w: Word, state: Word)
    requires Unpack(state).refs == 0
    ensures Unpack(And(And(w, REF_MAX), state)) == Unpack(state).(refs := Unpack(w).refs)
       <==> Unpack(w).refs == 0 && AndFlags(Unpack(w), Unpack(state)) == Unpack(state)
  {
    MaskAnyState(w, state);
  }

  lemma InitialWord(w: Word)
    ensures Unpack(INITIAL_STATE) == INITIAL
    ensures w == INITIAL_STATE <==> Unpack(w) == INITIAL
  {
    assert Pack(INITIAL) == INITIAL_STATE;
    PackUnpack(w);
  }

  // ---------- src/task/state.rs: Snapshot ----------

  class Snapshot {
    var bits: Word

    constructor (w: Word)
      ensures bits == w
    {
      bits := w;
    }

    ghost function View(): Flags
      reads this
    {
      Unpack(bits)
    }

    predicate IsScheduled(): (r: bool)
      reads this
      ensures r == View().scheduled
    {
      TestFlags(bits, NO_FLAGS.(scheduled := true));
      And(bits, SCHEDULED) == SCHEDULED
    }

    method UnsetScheduled()
      modifies this
      ensures View() == old(View()).(scheduled := false)
    {
      ClearFlags(bits, NO_FLAGS.(scheduled := true));
      bits := And(bits, Not(SCHEDULED));
    }

    method SetScheduled()
      modifies this
      ensures View() == old(View()).(scheduled := true)
    {
      SetFlags(bits, NO_FLAGS.(scheduled := true));
      bits := Or(bits, SCHEDULED);
    }

    predicate IsRunning(): (r: bool)
      reads this
      ensures r == View().running
    {
      TestFlags(bits, NO_FLAGS.(running := true));
      And(bits, RUNNING) == RUNNING
    }

    method SetRunning()
      modifies this
      ensures View() == old(View()).(running := true)
    {
      SetFlags(bits, NO_FLAGS.(running := true));
      bits := Or(bits, RUNNING);
    }

    method UnsetRunning()
      modifies this
      ensures View() == old(View()).(running := false)
    {
      ClearFlags(bits, NO_FLAGS.(running := true));
      bits := And(bits, Not(RUNNING));
    }

    predicate IsCompleted(): (r: bool)
      reads this
      ensures r == View().completed
    {
      TestFlags(bits, NO_FLAGS.(completed := true));
      And(bits, COMPLETED) == COMPLETED
    }

    predicate NeedStart(): (r: bool)
      reads this
      ensures r == View().needStart
    {
      TestFlags(bits, NO_FLAGS.(needStart := true));
      And(bits, NEED_START) == NEED_START
    }

    method UnsetNeedStart()
      modifies this
      ensures View() == old(View()).(needStart := false)
    {
      ClearFlags(bits, NO_FLAGS.(needStart := true));
      bits := And(bits, Not(NEED_START));
    }

    method SetCompleted()
      modifies this
      ensures View() == old(View()).(completed := true)
    {
      SetFlags(bits, NO_FLAGS.(completed := true));
      bits := Or(bits, COMPLETED);
    }

    predicate IsClosed(): (r: bool)
      reads this
      ensures r == View().closed
    {
      TestFlags(bits, NO_FLAGS.(closed := true));
      And(bits, CLOSED) == CLOSED
    }

    method SetClosed()
      modifies this
      ensures View() == old(View()).(closed := true)
    {
      SetFlags(bits, NO_FLAGS.(closed := true));
      bits := Or(bits, CLOSED);
    }

    function RefCount(): (n: nat)
      reads this
      ensures n == View().refs <= REF_COUNT_MAX
    {
      RefCountBits(bits);
      UnpackBound(bits);
      Shr(And(bits, REF_COUNT_MASK), REF_COUNT_SHIFT)
    }

    method IncrRef() returns (aborted: bool)
      modifies this
      ensures aborted == (old(View()).refs == REF_COUNT_MAX)
      ensures View() == if aborted then old(View()) else old(View()).(refs := old(View()).refs + 1)
    {
      if RefCount() == REF_MAX {
        return true;
      }
      AddRef(bits);
      bits := bits + REF_ONE;
      aborted := false;
    }

    method DecrRef() returns (ok: bool)
      modifies this
      ensures ok == (old(View()).refs >= 1)
      ensures View() == Decremented(old(View()))
    {
      ok := RefCount() >= 1;
      SubRef(bits);
      bits := WrappingSub(bits, REF_ONE);
    }

    // The one state that `set_state` is called with.
    method SetScheduledClosed()
      modifies this
      ensures View() == NO_FLAGS.(closed := old(View()).closed, scheduled := old(View()).scheduled)
    {
      MaskState(bits);
      MaskAnyState(bits, Or(SCHEDULED, CLOSED));
      SetState(Or(SCHEDULED, CLOSED));
    }

    // Masks the word instead of assigning it: a flag survives only if it was set already.
    method SetState(state: Word)
      modifies this
      ensures View() == AndFlags(AndFlags(old(View()), LOW_BITS), Unpack(state))
    {
      MaskAnyState(bits, state);
      bits := And(And(bits, REF_MAX), state);
    }
  }

  // ---------- src/task/state.rs: State ----------

  class State {
    var bits: Word

    constructor ()
      ensures View() == INITIAL
    {
      bits := INITIAL_STATE;
      InitialWord(INITIAL_STATE);
    }

    ghost function View(): Flags
      reads this
    {
      Unpack(bits)
    }

    method Load() returns (s: Snapshot)
      ensures fresh(s) && s.bits == bits
    {
      s := new Snapshot(bits);
    }

    method Store(s: Snapshot)
      modifies this
      ensures bits == s.bits
    {
      bits := s.bits;
    }

    method TransitionToRunning() returns (out: Outcome<ToRunning>)
      modifies this
      ensures Transition(View(), out) == TaskFlags.TransitionToRunning(old(View()))
    {
      var snapshot := Load();
      var ok := !snapshot.NeedStart();
      snapshot.UnsetScheduled();
      if snapshot.IsClosed() {
        out := Returned(RunClosed, ok);
      } else {
        snapshot.SetRunning();
        out := Returned(Running, ok);
      }
      Store(snapshot);
    }

    method TransitionToIdle() returns (out: Outcome<ToIdle>)
      modifies this
      ensures Transition(View(), out) == TaskFlags.TransitionToIdle(old(View()))
    {
      var snapshot := Load();
      var ok := snapshot.IsRunning();
      snapshot.UnsetRunning();
      if snapshot.IsClosed() {
        snapshot.UnsetScheduled();
        out := Returned(IdleClosed, ok);
      } else if snapshot.IsScheduled() {
        out := Returned(IdleSchedule, ok);
      } else {
        out := Returned(IdleDoNothing, ok);
      }
      Store(snapshot);
    }

    method TransitionToScheduled() returns (out: Outcome<ToScheduled>)
      modifies this
      ensures Transition(View(), out) == TaskFlags.TransitionToScheduled(old(View()))
    {
      var snapshot := Load();
      if snapshot.IsCompleted() || snapshot.IsClosed() || snapshot.IsScheduled() {
        out := Returned(WakeDoNothing, true);
      } else {
        snapshot.SetScheduled();
        if snapshot.IsRunning() {
          out := Returned(WakeDoNothing, true);
        } else {
          out := Returned(Submit, true);
        }
      }
      Store(snapshot);
    }

    method TransitionToCompleted() returns (out: Outcome<ToCompleted>)
      modifies this
      ensures Transition(View(), out) == TaskFlags.TransitionToCompleted(old(View()))
    {
      var snapshot := Load();
      snapshot.UnsetRunning();
      snapshot.UnsetScheduled();
      snapshot.SetCompleted();
      if snapshot.RefCount() == 0 || snapshot.IsClosed() {
        snapshot.SetClosed();
        out := Returned(CompletedClosed, true);
      } else {
        out := Returned(CompletedDoNothing, true);
      }
      Store(snapshot);
    }

    method TransitionToClosed() returns (out: Outcome<ToClosed>)
      modifies this
      ensures Transition(View(), out) == TaskFlags.TransitionToClosed(old(View()))
    {
      var snapshot := Load();
      if snapshot.NeedStart() {
        snapshot.SetClosed();
        out := Returned(CloseDoNothing, true);
      } else if snapshot.IsCompleted() || snapshot.IsClosed() {
        out := Returned(CloseDoNothing, true);
      } else if !snapshot.IsScheduled() && !snapshot.IsRunning() {
        snapshot.SetScheduled();
        snapshot.SetClosed();
        var aborted := snapshot.IncrRef();
        if aborted {
          return Aborted;
        }
        out := Returned(Close(true), true);
      } else {
        snapshot.SetClosed();
        out := Returned(Close(false), true);
      }
      Store(snapshot);
    }

    method DropJoinHandle() returns (out: Outcome<DropAction>)
      modifies this
      ensures Transition(View(), out) == TaskFlags.DropJoinHandle(old(View()))
    {
      var snapshot := Load();
      InitialWord(snapshot.bits);
      if snapshot.bits == INITIAL_STATE {
        return Returned(HandleDestroy, true);
      }
      var counted := snapshot.DecrRef();
      var quiet := !snapshot.IsScheduled() && !snapshot.IsRunning();
      var destroy := snapshot.RefCount() == 0;
      if snapshot.IsCompleted() && !snapshot.IsClosed() {
        snapshot.SetClosed();
        out := Returned(DropOutput(destroy), counted && quiet);
      } else if destroy && !snapshot.IsClosed() {
        snapshot.SetScheduledClosed();
        var aborted := snapshot.IncrRef();
        if aborted {
          return Aborted;
        }
        out := Returned(HandleSchedule, counted && quiet);
      } else if destroy {
        out := Returned(HandleDestroy, counted && quiet);
      } else if !snapshot.IsClosed() {
        snapshot.SetClosed();
        out := Returned(HandleDoNothing, counted && !quiet);
      } else {
        return Unreachable;
      }
      Store(snapshot);
    }

    method PollJoinHandle() returns (out: Outcome<PollAction>)
      modifies this
      ensures Transition(View(), out) == TaskFlags.PollJoinHandle(old(View()))
    {
      var snapshot := Load();
      if snapshot.IsClosed() {
        if snapshot.IsScheduled() || snapshot.IsRunning() {
          out := Returned(Register, !snapshot.IsCompleted() && !snapshot.NeedStart());
        } else {
          var ok := snapshot.IsCompleted() || snapshot.NeedStart();
          snapshot.UnsetNeedStart();
          out := Returned(Complete(true), ok);
        }
      } else if snapshot.NeedStart() {
        snapshot.UnsetNeedStart();
        out := Returned(Start, true);
      } else if !snapshot.IsCompleted() {
        out := Returned(Register, true);
      } else {
        snapshot.SetClosed();
        out := Returned(Complete(false), true);
      }
      Store(snapshot);
    }

    // The overflow check comes after the addition, which the check keeps from ever wrapping.
    method IncrRef() returns (out: Outcome<()>)
      modifies this
      ensures TaskFlags.IncrRef(old(View())).outcome == out
      ensures out != Aborted ==> View() == TaskFlags.IncrRef(old(View())).next
    {
      var val := Load();
      var prev := val.bits;
      UnpackBound(prev);
      if prev <= ISIZE_MAX {
        AddRef(prev);
      }
      val.bits := WrappingAdd(val.bits, REF_ONE);
      Store(val);
      if prev > ISIZE_MAX {
        return Aborted;
      }
      out := Returned((), true);
    }

    method DropWakerRef() returns (out: Outcome<DropWakerAction>)
      modifies this
      ensures Transition(View(), out) == TaskFlags.DropWakerRef(old(View()))
    {
      var snapshot := Load();
      var ok := snapshot.DecrRef();
      if snapshot.RefCount() == 0 {
        if !snapshot.IsCompleted() && !snapshot.IsClosed() {
          snapshot.SetScheduledClosed();
          if !snapshot.IsScheduled() {
            out := Returned(WakerSchedule, true);
          } else {
            out := Returned(WakerDoNothing, true);
          }
        } else {
          out := Returned(WakerDestroy, true);
        }
      } else {
        out := Returned(WakerDoNothing, ok);
      }
      Store(snapshot);
    }

    method DecrRef() returns (out: Outcome<bool>)
      modifies this
      ensures Transition(View(), out) == TaskFlags.DecrRef(old(View()))
    {
      var val := Load();
      var ok := val.RefCount() >= 1;
      SubRef(val.bits);
      val.bits := WrappingSub(val.bits, REF_ONE);
      Store(val);
      out := Returned(val.RefCount() == 0, ok);
    }
  }
}
