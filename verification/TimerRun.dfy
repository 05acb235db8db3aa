// Emptying a level: alternate `next_expiration` and `take_slot`, each time from the deadline
// just reached.
module TimerRun {
  import opened MachineWord
  import opened TimerLevel

  // ---------- one slot ----------

  // The timers of a slot that starts at `deadline`.
  predicate DueIn(nodes: seq<Entry>, deadline: nat, level: nat) {
    forall n :: n in nodes ==> deadline <= n.value < deadline + SlotRange(level)
  }

  // The timers lie in the slots after the one of `instant`, up to slot `last`.
  ghost predicate Remaining(l: Level, instant: nat, last: nat)
    requires l.Valid()
    reads l, l.repr
  {
    var q := SlotNumber(instant, l.level);
    q <= last <= q + 63 && EntriesWithin(l, q, last - q)
  }

  // The next slot is found and handed over.  Every timer left is due in a later slot.
  method FireNext(l: Level, now: Word, ghost last: nat) returns (e: Expiration, list: EntryList)
    requires l.Valid() && now + LevelRange(l.level) <= MAX && l.occupied != 0 && Remaining(l, now, last)
    modifies l, l.slot
    ensures l.Valid() && e.slot < 64 && list.nodes == old(l.Lists())[e.slot] != []
    ensures l.Lists() == old(l.Lists())[e.slot := []]
    ensures DueIn(list.nodes, e.deadline, l.level)
    ensures now < e.deadline <= SlotStart(last, l.level) && Remaining(l, e.deadline, last)
    ensures SlotNumber(now, l.level) < SlotNumber(e.deadline, l.level)
  {
    var next := l.NextExpiration(now);
    NextIsAhead(l, now, last);
    e := next.value;
    ghost var given := l.Lists();
    list := l.TakeSlot(e.slot);
    forall i: nat, n | i < 64 && n in l.Lists()[i]
      ensures InWindow(n.value, l.level, SlotNumber(e.deadline, l.level), last - SlotNumber(e.deadline, l.level))
    {
      assert i != e.slot && n in given[i];
    }
  }

  // The list found holds exactly the timers of the slot that starts at the deadline; all others
  // come later.
  lemma {:induction false} NextIsAhead(l: Level, now: Word, last: nat)
    requires l.Valid() && now + LevelRange(l.level) <= MAX && l.occupied != 0 && Remaining(l, now, last)
    ensures var e := l.NextExpiration(now).value;
      var q := SlotNumber(e.deadline, l.level);
      && e.slot < 64 && l.Lists()[e.slot] != [] && DueIn(l.Lists()[e.slot], e.deadline, l.level)
      && SlotNumber(now, l.level) < q <= last && now < e.deadline <= SlotStart(last, l.level)
      && forall i, n :: 0 <= i < 64 && i != e.slot && n in l.Lists()[i] ==> InWindow(n.value, l.level, q, last - q)
  {
    var e, found := l.NextExpiration(now).value, Found(l.level, l.occupied, now);
    WindowReaches(l, SlotNumber(now, l.level), last);
    NoTimerMissed(l, now);
    DeadlineIsDue(l.level, l.occupied, now);
    FoundIsWithin(l, now, last);
    SlotNumberOfStart(found, l.level);
    DeadlineBetween(l.level, now, found, last);
    forall i: nat, n | i < 64 && i != e.slot && n in l.Lists()[i]
      ensures InWindow(n.value, l.level, found, last - found)
    {
      WindowShrinks(n.value, l.level, SlotNumber(now, l.level), found, last);
    }
  }

  lemma WindowShrinks(when: nat, level: nat, q: nat, found: nat, last: nat)
    requires q <= found <= last && InWindow(when, level, q, last - q)
    requires when >= SlotStart(found, level) + SlotRange(level)
    ensures InWindow(when, level, found, last - found)
  {
    assert q + 1 + (last - q) == found + 1 + (last - found);
  }

  lemma {:induction false} FoundIsWithin(l: Level, now: Word, last: nat)
    requires l.Valid() && l.occupied != 0 && Remaining(l, now, last)
    requires EntriesWithin(l, SlotNumber(now, l.level), 63)
    ensures var found := Found(l.level, l.occupied, now);
      SlotNumber(now, l.level) < found <= last && l.Lists()[found % 64] != []
  {
    WindowWidens(l, SlotNumber(now, l.level));
    var n := FirstTimer(l, now);
    NumberInWindow(n.value, l.level, SlotNumber(now, l.level), last);
  }

  lemma {:induction false} NumberInWindow(when: nat, level: nat, q: nat, last: nat)
    requires q <= last && InWindow(when, level, q, last - q)
    ensures q < SlotNumber(when, level) <= last
  {
    SlotNumberBefore(when, last + 1, level);
    SlotNumberBefore(when, q + 1, level);
  }

  lemma {:induction false} WindowReaches(l: Level, q: nat, last: nat)
    requires l.Valid() && q <= last <= q + 63 && EntriesWithin(l, q, last - q)
    ensures EntriesWithin(l, q, 63)
  {
    if last < q + 63 {
      SlotStartMono(last + 1, q + 64, l.level);
    }
  }

  lemma {:induction false} DeadlineBetween(level: nat, now: nat, q: nat, last: nat)
    requires SlotNumber(now, level) < q <= last
    ensures now < SlotStart(q, level) <= SlotStart(last, level)
  {
    SlotNumberBefore(now, q, level);
    if q < last {
      SlotStartMono(q, last, level);
    }
  }

  // ---------- emptying the level ----------

  ghost predicate Fired(fired: seq<Expiration>, slot: nat) {
    exists k :: 0 <= k < |fired| && fired[k].slot == slot
  }

  // The lists handed over so far are the given ones of their slots, each slot once, and every
  // other slot still has its list.  The deadlines increase, and each list holds timers that are
  // due within the slot that starts at its deadline.
  ghost predicate HandedOver(
    level: nat, now: nat, instant: nat,
    given: seq<seq<Entry>>, fired: seq<Expiration>, handed: seq<seq<Entry>>, left: seq<seq<Entry>>)
  {
    && |fired| == |handed| && |given| == |left| == 64
    && (forall k :: 0 <= k < |fired| ==>
          && fired[k].slot < 64 && handed[k] == given[fired[k].slot] != [] && left[fired[k].slot] == []
          && now < fired[k].deadline <= instant && DueIn(handed[k], fired[k].deadline, level))
    && (forall j, k :: 0 <= j < k < |fired| ==>
          fired[j].slot != fired[k].slot && fired[j].deadline < fired[k].deadline)
    && (forall i :: 0 <= i < 64 ==> left[i] == given[i] || Fired(fired, i))
  }

  lemma {:induction false} HandedOne(
    level: nat, now: nat, instant: nat,
    given: seq<seq<Entry>>, fired: seq<Expiration>, handed: seq<seq<Entry>>, left: seq<seq<Entry>>, e: Expiration)
    requires HandedOver(level, now, instant, given, fired, handed, left) && e.slot < 64 && left[e.slot] != []
    requires now <= instant < e.deadline && DueIn(left[e.slot], e.deadline, level)
    ensures HandedOver(level, now, e.deadline, given, fired + [e], handed + [left[e.slot]], left[e.slot := []])
  {
    var fired' := fired + [e];
    assert fired'[|fired|].slot == e.slot;
    forall i: nat | i < 64
      ensures left[e.slot := []][i] == given[i] || Fired(fired', i)
    {
      if Fired(fired, i) {
        var k :| 0 <= k < |fired| && fired[k].slot == i;
        assert fired'[k].slot == i;
      }
    }
  }

  lemma {:induction false} NothingOccupied(l: Level)
    requires l.Valid() && l.occupied == 0
    ensures l.Lists() == seq(64, i => [])
  {
    forall i: nat | i < 64
      ensures l.Lists()[i] == []
    {
      assert l.ListValid(l.slot[i], i);
      BitOfZero(i);
    }
  }

  // Emptying the level hands over every list that had timers, each exactly once, in the order of
  // their deadlines, and every timer in it is due within the slot that starts at that deadline.
  method FireAll(l: Level, now: Word) returns (fired: seq<Expiration>, lists: seq<EntryList>)
    requires l.Valid() && now + 2 * LevelRange(l.level) <= MAX
    requires EntriesWithin(l, SlotNumber(now, l.level), 63)
    modifies l, l.slot
    ensures l.Valid() && l.occupied == 0 && l.Lists() == seq(64, i => [])
    ensures |fired| == |lists|
    ensures forall k :: 0 <= k < |fired| ==>
      && fired[k].slot < 64 && lists[k].nodes == old(l.Lists())[fired[k].slot] != []
      && now < fired[k].deadline <= now + LevelRange(l.level)
      && DueIn(lists[k].nodes, fired[k].deadline, l.level)
    ensures forall j, k :: 0 <= j < k < |fired| ==>
      fired[j].slot != fired[k].slot && fired[j].deadline < fired[k].deadline
    ensures forall i :: 0 <= i < 64 && old(l.Lists())[i] != [] ==> Fired(fired, i)
  {
    fired, lists := [], [];
    var instant: Word := now;
    ghost var given, handed: seq<seq<Entry>> := l.Lists(), [];
    ghost var last := SlotNumber(now, l.level) + 63;
    AheadWithinRotation(l.level, now, 63);
    while l.occupied != 0
      invariant l.Valid() && Remaining(l, instant, last)
      invariant now <= instant && (instant == now || instant <= SlotStart(last, l.level))
      invariant HandedOver(l.level, now, instant, given, fired, handed, l.Lists())
      invariant |lists| == |handed| && forall k :: 0 <= k < |lists| ==> lists[k].nodes == handed[k]
      decreases last - SlotNumber(instant, l.level)
    {
      ghost var left := l.Lists();
      var e, list := FireNext(l, instant, last);
      HandedOne(l.level, now, instant, given, fired, handed, left, e);
      fired, lists, handed := fired + [e], lists + [list], handed + [left[e.slot]];
      instant := e.deadline;
    }
    NothingOccupied(l);
  }
}
