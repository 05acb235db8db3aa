// Levels on which the wheel does not do what its comments say.  The exact conditions are stated
// in TimerLevel.
module TimerWitnesses {
  import opened MachineWord
  import opened LinkedList
  import opened TimerLevel

  // Lists 0 and 1 are occupied at instant 0: the deadline found comes after the start of list 1.
  lemma PassedOverSlot()
    ensures 0 + LevelRange(0) <= MAX
    ensures !NoSlotDueBefore(0, 3, 0, Expires(0, 3, 0).value.deadline)
  {
    FirstSlotNumber();
    assert Bit(3, 0) && Bit(3, 1);
    assert OccupiedAfter(0, 3, 0, 0) && OccupiedAfter(0, 3, 0, 1);
    DeadlineIsLeastExactly(0, 3, 0);
  }

  lemma FirstSlotNumber()
    ensures SlotRange(0) == 1 && LevelRange(0) == 64 && SlotNumber(0, 0) == 0
  {}

  // The same with timers: one due at 64 fills the current slot, one due at 1 is missed.
  method PassedOverTimer() returns (l: Level, missed: Entry)
    ensures l.Valid() && l.level == 0 && l.occupied != 0
    ensures EntriesWithin(l, SlotNumber(0, 0), 64)
    ensures missed in l.Lists()[1] && missed.value == 1
    ensures !NoneEarlier(l, l.NextExpiration(0).value.deadline)
  {
    l := new Level(0);
    var current: Entry := new Node<Word>(64);
    SlotsOfTimers();
    l.AddEntry(current);
    missed := new Node<Word>(1);
    l.AddEntry(missed);
    assert l.Lists()[0] == [current] && l.Lists()[1] == [missed];
    CurrentHidesNext(l, current, missed);
  }

  lemma SlotsOfTimers()
    ensures SlotFor(64, 0) == 0 && SlotFor(1, 0) == 1
  {
    SlotForIsDivision(64, 0);
    SlotForIsDivision(1, 0);
    SlotNumberIsDivision(64, 0);
    SlotNumberIsDivision(1, 0);
  }

  lemma CurrentHidesNext(l: Level, current: Entry, missed: Entry)
    requires l.Valid() && l.level == 0 && current.value == 64 && missed.value == 1
    requires l.Lists()[0] == [current] && l.Lists()[1] == [missed]
    requires forall i :: 2 <= i < 64 ==> l.Lists()[i] == []
    ensures l.occupied != 0 && EntriesWithin(l, SlotNumber(0, 0), 64)
    ensures !NoneEarlier(l, l.NextExpiration(0).value.deadline)
  {
    FirstSlotNumber();
    assert l.ListValid(l.slot[0], 0) && l.ListValid(l.slot[1], 1);
    BitOfZero(0);
    SlotStartIsProduct(1, 0);
    SlotStartIsProduct(65, 0);
    assert OccupiedAfter(0, l.occupied, 0, 0) && OccupiedAfter(0, l.occupied, 0, 1);
    NoTimerMissedExactly(l, 0);
  }

  // At instant 63 a timer due at 64 is in list 0, in the next rotation of the lowest level: the
  // assertion that only the top level of two adds a rotation fails.
  lemma LowerLevelAddsRotation()
    ensures SlotFor(64, 0) == 0 && Bit(1, 0) && !TopLevelAssertion(0, 1, 63, 2)
  {
    SlotsOfTimers();
    LastSlot();
    LastSlotAddsRotation(0, 1, 63, 2);
  }

  lemma LastSlot()
    ensures SlotNumber(63, 0) % 64 == 63
  {
    SlotNumberIsDivision(63, 0);
  }

  // Whatever is found in the last slot of a rotation lies in the next one, or is the slot itself.
  lemma LastSlotAddsRotation(level: nat, occupied: Word, now: Word, numLevels: nat)
    requires level <= LEVEL_MAX && occupied != 0 && level + 1 != numLevels
    requires SlotNumber(now, level) % 64 == 63
    ensures !TopLevelAssertion(level, occupied, now, numLevels)
  {
    AssertionExactly(level, occupied, now, numLevels);
  }

  // Removing a timer that is in no list from an empty level breaks the level.
  method StrayRemoval() returns (l: Level, assertionHolds: bool)
    ensures l.level == 0 && !l.Valid() && !assertionHolds
  {
    l := new Level(0);
    var stray: Entry := new Node<Word>(1);
    assertionHolds := l.RemoveEntry(stray);
  }
}
