// One level of the timer wheel (src/time/driver/wheel/level.rs): 64 lists of timers, a word
// with one occupancy bit a list, and the search for the next deadline.
module TimerLevel {
  import opened Options
  import opened MachineWord
  import opened LinkedList

  const LEVEL_MULT: nat := 64
  // Highest level whose range fits in a word.
  const LEVEL_MAX: nat := 9

  type Entry = Node<Word>
  type EntryList = LinkedList<Word>

  datatype Expiration = Expiration(level: nat, slot: nat, deadline: Word)

  // ---------- arithmetic ----------

  function SlotRange(level: nat): (r: nat)
    ensures r >= 1
  {
    if level == 0 then 1 else LEVEL_MULT * SlotRange(level - 1)
  }

  function LevelRange(level: nat): nat {
    LEVEL_MULT * SlotRange(level)
  }

  function SlotFor(when: Word, level: nat): (slot: nat)
    ensures slot < 64
  {
    Shr(when, level * 6) % LEVEL_MULT
  }

  // The next slot to process: rotate the word so that the current slot comes first, and take
  // the lowest set bit.  The rotation amount is truncated to 32 bits.
  function NextOccupiedSlot(level: nat, occupied: Word, now: Word): (slot: Option<nat>)
    ensures slot.Some? ==> slot.value < 64
  {
    if occupied == 0 then None
    else
      var nowSlot := now / SlotRange(level);
      var zeros := TrailingZeros(RotateRight(occupied, nowSlot % 0x1_0000_0000));
      Some((zeros + nowSlot) % 64)
  }

  // The start of the current rotation, by masking the low bits.
  function LevelStart(level: nat, now: Word): nat
    requires level <= LEVEL_MAX
  {
    RangeFits(level);
    And(now, Not(LevelRange(level) - 1))
  }

  function SlotDeadline(level: nat, slot: nat, now: Word): nat
    requires level <= LEVEL_MAX
  {
    LevelStart(level, now) + slot * SlotRange(level)
  }

  // The instant of the slot, one rotation later if that instant is not in the future.
  function Deadline(level: nat, slot: nat, now: Word): nat
    requires level <= LEVEL_MAX
  {
    var deadline := SlotDeadline(level, slot, now);
    if deadline <= now then deadline + LevelRange(level) else deadline
  }

  // ---------- slots as intervals of time ----------

  // Slots are numbered from instant 0 on, without end; slot `n` occupies list `n % 64`.
  function SlotNumber(t: nat, level: nat): nat {
    if t < SlotRange(level) then 0 else 1 + SlotNumber(t - SlotRange(level), level)
  }

  function SlotStart(n: nat, level: nat): nat {
    if n == 0 then 0 else SlotStart(n - 1, level) + SlotRange(level)
  }

  lemma {:induction false} SlotStartIsProduct(n: nat, level: nat)
    ensures SlotStart(n, level) == n * SlotRange(level) == SlotRange(level) * n
  {
    if n > 0 {
      SlotStartIsProduct(n - 1, level);
      assert n * SlotRange(level) == (n - 1) * SlotRange(level) + SlotRange(level);
    }
  }

  lemma {:induction false} SlotStartSum(a: nat, b: nat, level: nat)
    ensures SlotStart(a + b, level) == SlotStart(a, level) + SlotStart(b, level)
    decreases b
  {
    if b > 0 {
      SlotStartSum(a, b - 1, level);
    }
  }

  lemma {:induction false} SlotStartMono(a: nat, b: nat, level: nat)
    requires a < b
    ensures SlotStart(a, level) + SlotRange(level) <= SlotStart(b, level)
    decreases b
  {
    if a + 1 < b {
      SlotStartMono(a, b - 1, level);
    }
  }

  // An instant lies in exactly one slot.
  lemma {:induction false} SlotEncloses(t: nat, level: nat)
    ensures var n := SlotNumber(t, level); SlotStart(n, level) <= t < SlotStart(n + 1, level)
    decreases t
  {
    if t >= SlotRange(level) {
      SlotEncloses(t - SlotRange(level), level);
    }
  }

  // The number of a slot is a quotient, and its start the multiple below.
  lemma {:induction false} SlotNumberIsDivision(t: nat, level: nat)
    ensures SlotNumber(t, level) == t / SlotRange(level)
    ensures t % SlotRange(level) == 0 <==> t == SlotStart(SlotNumber(t, level), level)
  {
    var n := SlotNumber(t, level);
    SlotEncloses(t, level);
    SlotStartIsProduct(n, level);
    DivUnique(t, SlotRange(level), n, t - SlotStart(n, level));
  }

  lemma {:induction false} SlotNumberOf(t: nat, n: nat, level: nat)
    requires SlotStart(n, level) <= t < SlotStart(n + 1, level)
    ensures SlotNumber(t, level) == n
  {
    var m := SlotNumber(t, level);
    SlotEncloses(t, level);
    if m < n {
      SlotStartMono(m, n, level);
    } else if n < m {
      SlotStartMono(n, m, level);
    }
  }

  lemma {:induction false} SlotNumberBefore(t: nat, n: nat, level: nat)
    ensures SlotNumber(t, level) < n <==> t < SlotStart(n, level)
  {
    var m := SlotNumber(t, level);
    SlotEncloses(t, level);
    if m + 1 < n {
      SlotStartMono(m + 1, n, level);
    } else if n < m {
      SlotStartMono(n, m, level);
    }
  }

  lemma {:induction false} SlotNumberOfStart(n: nat, level: nat)
    ensures SlotNumber(SlotStart(n, level), level) == n
  {
    SlotNumberOf(SlotStart(n, level), n, level);
  }

  // ---------- facts about the arithmetic ----------

  lemma {:induction false} SlotRangePow2(level: nat)
    ensures SlotRange(level) == Pow2(6 * level)
  {
    if level > 0 {
      SlotRangePow2(level - 1);
      var n := 6 * level;
      assert Pow2(n) == 2 * Pow2(n - 1) == 4 * Pow2(n - 2) == 8 * Pow2(n - 3);
      assert Pow2(n - 3) == 2 * Pow2(n - 4) == 4 * Pow2(n - 5) == 8 * Pow2(n - 6);
    }
  }

  lemma {:induction false} RangeFits(level: nat)
    requires level <= LEVEL_MAX
    ensures LevelRange(level) == Pow2(6 * level + 6) && 64 <= LevelRange(level) < MODULUS
  {
    SlotRangePow2(level + 1);
    Pow2Monotone(6, 6 * level + 6);
    Pow2Monotone(6 * level + 6, 60);
    Pow2Word();
    Pow2Monotone(60, 64);
    assert Pow2(6) == 64;
  }

  // No higher level has a range that fits in a word.
  lemma {:induction false} LevelMaxIsHighest(level: nat)
    ensures LevelRange(level) < MODULUS <==> level <= LEVEL_MAX
  {
    if level <= LEVEL_MAX {
      RangeFits(level);
    } else {
      SlotRangePow2(level + 1);
      Pow2Monotone(64, 6 * level + 6);
      Pow2Word();
    }
  }

  // Shifting equals dividing by the slot range.
  lemma {:induction false} SlotForIsDivision(when: Word, level: nat)
    ensures SlotFor(when, level) == SlotNumber(when, level) % 64
  {
    SlotRangePow2(level);
    ShrIsDivision(when, 6 * level);
    SlotNumberIsDivision(when, level);
  }

  // Masking equals rounding down to the start of the rotation.
  lemma {:induction false} LevelStartIsRounding(now: Word, level: nat)
    requires level <= LEVEL_MAX
    ensures LevelRange(level) >= 1 && LevelStart(level, now) == now - now % LevelRange(level)
  {
    RangeFits(level);
    RoundDownMask(now, 6 * level + 6);
  }

  // ---------- the scan ----------

  // Slots counted from the current one, cyclically.
  predicate OccupiedAfter(level: nat, occupied: Word, now: Word, k: nat) {
    Bit(occupied, (SlotNumber(now, level) + k) % 64)
  }

  // A linear cyclic scan over the 64 slots, starting at the current one.
  function Scan(level: nat, occupied: Word, now: Word, k: nat): (r: nat)
    requires k <= 64
    ensures k <= r <= 64
    ensures r < 64 ==> OccupiedAfter(level, occupied, now, r)
    ensures forall j: nat :: k <= j < r ==> !OccupiedAfter(level, occupied, now, j)
    decreases 64 - k
  {
    if k == 64 || OccupiedAfter(level, occupied, now, k) then k else Scan(level, occupied, now, k + 1)
  }

  lemma RotationAmount(n: nat, i: nat)
    ensures (i + n % 0x1_0000_0000) % 64 == (n + i) % 64
  {}

  // The distance from one slot to another, going up cyclically.
  function Distance(from: nat, slot: nat): (d: nat)
    ensures d < 64
    ensures slot < 64 ==> (from + d) % 64 == slot
  {
    (slot - from) % 64
  }

  lemma {:induction false} RotatedBits(level: nat, occupied: Word, now: Word, i: nat)
    requires i < 64
    ensures Bit(RotateRight(occupied, SlotNumber(now, level) % 0x1_0000_0000), i) == OccupiedAfter(level, occupied, now, i)
  {
    var q := SlotNumber(now, level);
    BitRotateRight(occupied, q % 0x1_0000_0000, i);
    RotationAmount(q, i);
  }

  lemma {:induction false} SomeOccupied(level: nat, occupied: Word, now: Word) returns (i: nat)
    requires occupied != 0
    ensures i < 64 && OccupiedAfter(level, occupied, now, i)
  {
    Pow2Word();
    var b := SomeBit(occupied, 64);
    i := Distance(SlotNumber(now, level), b);
  }

  // Rotating and counting trailing zeros finds the slot that the linear scan finds.
  lemma {:induction false} SearchIsScan(level: nat, occupied: Word, now: Word)
    requires occupied != 0
    ensures Scan(level, occupied, now, 0) < 64
    ensures NextOccupiedSlot(level, occupied, now) == Some((SlotNumber(now, level) + Scan(level, occupied, now, 0)) % 64)
  {
    SlotNumberIsDivision(now, level);
    var rotated := RotateRight(occupied, SlotNumber(now, level) % 0x1_0000_0000);
    var i := SomeOccupied(level, occupied, now);
    RotatedBits(level, occupied, now, i);
    BitOfZero(i);
    ZerosAreScanned(level, occupied, now, rotated);
  }

  lemma {:induction false} ZerosAreScanned(level: nat, occupied: Word, now: Word, rotated: Word)
    requires rotated != 0 && rotated == RotateRight(occupied, SlotNumber(now, level) % 0x1_0000_0000)
    ensures TrailingZeros(rotated) == Scan(level, occupied, now, 0) < 64
  {
    var z, k := TrailingZeros(rotated), Scan(level, occupied, now, 0);
    Pow2Word();
    TrailingZerosIsLeast(rotated, 64);
    RotatedBits(level, occupied, now, z);
    if k < z {
      RotatedBits(level, occupied, now, k);
    }
  }

  // ---------- the deadline ----------

  // Slots to go from the current one: a rotation if the current slot itself is found.
  function SlotsAhead(k: nat): nat {
    if k == 0 then 64 else k
  }

  // The start of the current rotation is the start of the last slot numbered by a multiple of 64.
  lemma {:induction false} RotationStart(now: Word, level: nat)
    requires level <= LEVEL_MAX
    ensures var q := SlotNumber(now, level);
      q % 64 <= q && LevelStart(level, now) == SlotStart(q - q % 64, level)
  {
    var q := SlotNumber(now, level);
    var first := q - q % 64;
    LevelStartIsRounding(now, level);
    WithinRotation(level, now, first);
    SlotStartIsProduct(first, level);
    WholeRotations(SlotRange(level), first, q / 64);
    DivUnique(now, LevelRange(level), q / 64, now - SlotStart(first, level));
  }

  lemma {:induction false} WithinRotation(level: nat, now: nat, first: nat)
    requires first <= SlotNumber(now, level) < first + 64
    ensures SlotStart(first, level) <= now < SlotStart(first, level) + LevelRange(level)
  {
    var q := SlotNumber(now, level);
    SlotEncloses(now, level);
    OneRotation(first, level);
    if first < q {
      SlotStartMono(first, q, level);
    }
    if q + 1 < first + 64 {
      SlotStartMono(q + 1, first + 64, level);
    }
  }

  lemma WholeRotations(sr: nat, first: nat, a: nat)
    requires first == 64 * a
    ensures sr * first == (64 * sr) * a
  {}

  lemma {:induction false} OneRotation(n: nat, level: nat)
    ensures SlotStart(n + 64, level) == SlotStart(n, level) + LevelRange(level)
  {
    SlotStartIsProduct(n, level);
    SlotStartIsProduct(n + 64, level);
    assert (n + 64) * SlotRange(level) == n * SlotRange(level) + 64 * SlotRange(level);
  }

  lemma CyclicSum(q: nat, k: nat)
    requires k < 64
    ensures (q + k) % 64 == if q % 64 + k < 64 then q % 64 + k else q % 64 + k - 64
  {}

  lemma {:induction false} StartOfSlot(level: nat, now: Word, k: nat)
    requires level <= LEVEL_MAX && k < 64
    ensures var q := SlotNumber(now, level);
      && (q % 64 + k >= 64 ==> q + k >= 64)
      && SlotDeadline(level, (q + k) % 64, now) == SlotStart(if q % 64 + k < 64 then q + k else q + k - 64, level)
  {
    var q := SlotNumber(now, level);
    RotationStart(now, level);
    CyclicSum(q, k);
    SlotFromRotation(level, now, q, q % 64, k, (q + k) % 64);
  }

  lemma {:induction false} SlotFromRotation(level: nat, now: Word, q: nat, b: nat, k: nat, slot: nat)
    requires level <= LEVEL_MAX && b <= q && k < 64 && LevelStart(level, now) == SlotStart(q - b, level)
    requires slot == if b + k < 64 then b + k else b + k - 64
    ensures b + k >= 64 ==> q + k >= 64
    ensures SlotDeadline(level, slot, now) == SlotStart(if b + k < 64 then q + k else q + k - 64, level)
  {
    SlotsFurther(q - b, slot, level);
  }

  lemma {:induction false} SlotsFurther(first: nat, slots: nat, level: nat)
    ensures SlotStart(first, level) + slots * SlotRange(level) == SlotStart(first + slots, level)
  {
    SlotStartIsProduct(slots, level);
    SlotStartSum(first, slots, level);
  }

  // The deadline is the start of the slot found, at least one and at most 64 slots ahead; the
  // rotation is added exactly if the slot is the current one or lies in the next rotation.
  lemma {:induction false} DeadlineValue(level: nat, now: Word, k: nat)
    requires level <= LEVEL_MAX && k < 64
    ensures var q := SlotNumber(now, level);
      && Deadline(level, (q + k) % 64, now) == SlotStart(q + SlotsAhead(k), level)
      && (SlotDeadline(level, (q + k) % 64, now) <= now <==> k == 0 || q % 64 + k >= 64)
  {
    var q := SlotNumber(now, level);
    StartOfSlot(level, now, k);
    DeadlineFrom(level, (q + k) % 64, now, SlotStart(if q % 64 + k < 64 then q + k else q + k - 64, level));
    NextRotation(level, now, SlotNumber(now, level), SlotNumber(now, level) % 64, k);
  }

  lemma DeadlineFrom(level: nat, slot: nat, now: Word, start: nat)
    requires level <= LEVEL_MAX && SlotDeadline(level, slot, now) == start
    ensures Deadline(level, slot, now) == if start <= now then start + LevelRange(level) else start
  {}

  lemma {:induction false} NextRotation(level: nat, now: nat, q: nat, b: nat, k: nat)
    requires q == SlotNumber(now, level) && b <= q && b < 64 && k < 64
    ensures var start := SlotStart(if b + k < 64 then q + k else q + k - 64, level);
      && (start <= now <==> k == 0 || b + k >= 64)
      && (if start <= now then start + LevelRange(level) else start) == SlotStart(q + SlotsAhead(k), level)
  {
    SlotEncloses(now, level);
    if b + k >= 64 {
      SlotStartMono(q + k - 64, q, level);
      OneRotation(q + k - 64, level);
    } else if k > 1 {
      SlotStartMono(q + 1, q + k, level);
    } else if k == 0 {
      OneRotation(q, level);
    }
  }

  // The deadline lies after `now`, at most one rotation of the level away.
  lemma {:induction false} DeadlineWithinRotation(level: nat, now: Word, k: nat)
    requires level <= LEVEL_MAX && k < 64
    ensures now < Deadline(level, (SlotNumber(now, level) + k) % 64, now) <= now + LevelRange(level)
  {
    DeadlineValue(level, now, k);
    AheadWithinRotation(level, now, SlotsAhead(k));
  }

  lemma {:induction false} AheadWithinRotation(level: nat, now: nat, m: nat)
    requires 1 <= m <= 64
    ensures now < SlotStart(SlotNumber(now, level) + m, level) <= now + LevelRange(level)
  {
    var q := SlotNumber(now, level);
    SlotEncloses(now, level);
    OneRotation(q, level);
    if m > 1 {
      SlotStartMono(q + 1, q + m, level);
    }
    if m < 64 {
      SlotStartMono(q + m, q + 64, level);
    }
  }

  // `NextExpiration` of the level, with the occupancy word as an argument.
  function Expires(level: nat, occupied: Word, now: Word): (e: Option<Expiration>)
    requires level <= LEVEL_MAX && now + LevelRange(level) <= MAX
    ensures e.None? <==> occupied == 0
  {
    match NextOccupiedSlot(level, occupied, now)
    case None => None
    case Some(slot) =>
      SearchIsScan(level, occupied, now);
      DeadlineWithinRotation(level, now, Scan(level, occupied, now, 0));
      Some(Expiration(level, slot, Deadline(level, slot, now)))
  }

  lemma {:induction false} ExpiresValue(level: nat, occupied: Word, now: Word)
    requires level <= LEVEL_MAX && now + LevelRange(level) <= MAX && occupied != 0
    ensures var q, k := SlotNumber(now, level), Scan(level, occupied, now, 0);
      var e := Expires(level, occupied, now).value;
      k < 64 && e.level == level && e.slot == (q + k) % 64 && e.deadline == SlotStart(q + SlotsAhead(k), level)
  {
    SearchIsScan(level, occupied, now);
    DeadlineValue(level, now, Scan(level, occupied, now, 0));
  }

  // Slot `n` starts after `now` and its list is occupied.
  predicate DueAfter(level: nat, occupied: Word, now: Word, n: nat) {
    now < SlotStart(n, level) && Bit(occupied, n % 64)
  }

  // A slot is due exactly if it lies ahead of the current one and its list is occupied.
  lemma {:induction false} DueIsAhead(level: nat, occupied: Word, now: Word, n: nat)
    ensures var q := SlotNumber(now, level);
      DueAfter(level, occupied, now, n) <==> q < n && OccupiedAfter(level, occupied, now, (n - q) % 64)
  {
    var q := SlotNumber(now, level);
    SlotEncloses(now, level);
    if q + 1 < n {
      SlotStartMono(q + 1, n, level);
    } else if n < q {
      SlotStartMono(n, q, level);
    }
    if q < n {
      SameList(q, n - q);
    }
  }

  lemma SameList(q: nat, m: nat)
    ensures (q + m) % 64 == (q + m % 64) % 64
  {}

  // The number of the slot found.
  function Found(level: nat, occupied: Word, now: Word): nat {
    SlotNumber(now, level) + SlotsAhead(Scan(level, occupied, now, 0))
  }

  // The current slot is empty, or it is the only occupied one.
  ghost predicate NothingBehindCurrent(level: nat, occupied: Word, now: Word) {
    OccupiedAfter(level, occupied, now, 0) ==> forall j: nat :: 0 < j < 64 ==> !OccupiedAfter(level, occupied, now, j)
  }

  ghost predicate NoSlotDueBefore(level: nat, occupied: Word, now: Word, deadline: nat) {
    forall n: nat :: DueAfter(level, occupied, now, n) ==> deadline <= SlotStart(n, level)
  }

  // The deadline is the earliest start of an occupied slot after `now`, if and only if the
  // current slot is empty or is the only occupied one.
  lemma {:induction false} DeadlineIsLeastExactly(level: nat, occupied: Word, now: Word)
    requires level <= LEVEL_MAX && now + LevelRange(level) <= MAX && occupied != 0
    ensures NoSlotDueBefore(level, occupied, now, Expires(level, occupied, now).value.deadline)
       <==> NothingBehindCurrent(level, occupied, now)
  {
    ExpiresValue(level, occupied, now);
    FoundIsLeastExactly(level, occupied, now);
  }

  lemma {:induction false} FoundIsLeastExactly(level: nat, occupied: Word, now: Word)
    requires Scan(level, occupied, now, 0) < 64
    ensures NoSlotDueBefore(level, occupied, now, SlotStart(Found(level, occupied, now), level))
       <==> NothingBehindCurrent(level, occupied, now)
  {
    if NothingBehindCurrent(level, occupied, now) {
      forall n: nat | DueAfter(level, occupied, now, n)
        ensures SlotStart(Found(level, occupied, now), level) <= SlotStart(n, level)
      {
        FoundIsNearest(level, occupied, now, n);
      }
    } else {
      var j: nat :| 0 < j < 64 && OccupiedAfter(level, occupied, now, j);
      BehindCurrent(level, occupied, now, j);
    }
  }

  // With the current slot occupied the deadline is a whole rotation away, and every other
  // occupied slot starts before it.
  lemma {:induction false} BehindCurrent(level: nat, occupied: Word, now: Word, j: nat)
    requires OccupiedAfter(level, occupied, now, 0) && 0 < j < 64 && OccupiedAfter(level, occupied, now, j)
    ensures var n := SlotNumber(now, level) + j;
      DueAfter(level, occupied, now, n) && SlotStart(n, level) < SlotStart(Found(level, occupied, now), level)
  {
    var q := SlotNumber(now, level);
    assert (q + j - q) % 64 == j;
    DueIsAhead(level, occupied, now, q + j);
    SlotStartMono(q + j, q + 64, level);
  }

  lemma {:induction false} FoundIsNearest(level: nat, occupied: Word, now: Word, n: nat)
    requires DueAfter(level, occupied, now, n) && NothingBehindCurrent(level, occupied, now)
    ensures Found(level, occupied, now) <= n
    ensures SlotStart(Found(level, occupied, now), level) <= SlotStart(n, level)
  {
    var q, found := SlotNumber(now, level), Found(level, occupied, now);
    DueIsAhead(level, occupied, now, n);
    NearestAhead(level, occupied, now, n - q);
    if found < n {
      SlotStartMono(found, n, level);
    }
  }

  lemma {:induction false} NearestAhead(level: nat, occupied: Word, now: Word, m: nat)
    requires m >= 1 && OccupiedAfter(level, occupied, now, m % 64) && NothingBehindCurrent(level, occupied, now)
    ensures SlotsAhead(Scan(level, occupied, now, 0)) <= m
  {
    if m < 64 {
      assert m % 64 == m;
    }
  }

  // The deadline found is itself the start of an occupied slot, the one named by the result.
  lemma {:induction false} DeadlineIsDue(level: nat, occupied: Word, now: Word)
    requires level <= LEVEL_MAX && now + LevelRange(level) <= MAX && occupied != 0
    ensures var e, n := Expires(level, occupied, now).value, Found(level, occupied, now);
      e.level == level && e.deadline == SlotStart(n, level) && e.slot == n % 64 && DueAfter(level, occupied, now, n)
  {
    ExpiresValue(level, occupied, now);
    FoundIsDue(level, occupied, now);
  }

  lemma {:induction false} FoundIsDue(level: nat, occupied: Word, now: Word)
    requires Scan(level, occupied, now, 0) < 64
    ensures DueAfter(level, occupied, now, Found(level, occupied, now))
    ensures Found(level, occupied, now) % 64 == (SlotNumber(now, level) + Scan(level, occupied, now, 0)) % 64
  {
    var q, k := SlotNumber(now, level), Scan(level, occupied, now, 0);
    DueIsAhead(level, occupied, now, q + SlotsAhead(k));
    SameList(q, SlotsAhead(k));
  }

  // ---------- occupancy bits ----------

  function OccupiedBit(slot: nat): Word {
    Shl(1, slot)
  }

  lemma {:induction false} OccupiedBitIsPow2(slot: nat)
    requires slot < 64
    ensures OccupiedBit(slot) == Pow2(slot)
  {
    LiftIsProduct(1, slot);
    Pow2Word();
    Pow2Monotone(slot, 64);
  }

  lemma {:induction false} BitSet(word: Word, slot: nat, i: nat)
    requires slot < 64 && i < 64
    ensures Or(word, OccupiedBit(slot)) < MODULUS
    ensures Bit(Or(word, OccupiedBit(slot)), i) == (Bit(word, i) || i == slot)
  {
    OccupiedBitIsPow2(slot);
    OrWord(word, OccupiedBit(slot));
    BitOr(word, OccupiedBit(slot), i);
    BitPow2(slot, i);
  }

  lemma {:induction false} BitFlipped(word: Word, slot: nat, i: nat)
    requires slot < 64 && i < 64
    ensures Xor(word, OccupiedBit(slot)) < MODULUS
    ensures Bit(Xor(word, OccupiedBit(slot)), i) == (Bit(word, i) != (i == slot))
  {
    OccupiedBitIsPow2(slot);
    OrWord(word, OccupiedBit(slot));
    BitXor(word, OccupiedBit(slot), i);
    BitPow2(slot, i);
  }

  // The test of the debug assertion.
  lemma {:induction false} TestsBit(word: Word, slot: nat)
    requires slot < 64
    ensures And(word, OccupiedBit(slot)) != 0 <==> Bit(word, slot)
  {
    OccupiedBitIsPow2(slot);
    Pow2Word();
    var both := And(word, OccupiedBit(slot));
    BitAnd(word, OccupiedBit(slot), slot);
    BitPow2(slot, slot);
    BitOfZero(slot);
    if both != 0 {
      var b := SomeBit(both, 64);
      BitAnd(word, OccupiedBit(slot), b);
      BitPow2(slot, b);
    }
  }

  lemma {:induction false} BitCleared(word: Word, slot: nat, i: nat)
    requires slot < 64 && i < 64
    ensures Bit(And(word, Not(OccupiedBit(slot))), i) == (Bit(word, i) && i != slot)
  {
    OccupiedBitIsPow2(slot);
    BitAnd(word, Not(OccupiedBit(slot)), i);
    BitNot(OccupiedBit(slot), i);
    BitPow2(slot, i);
  }

  lemma {:induction false} WithoutKeepsOthers<T>(s: seq<T>, x: T)
    requires Distinct(s)
    ensures forall y :: y in Without(s, x) <==> y in s && y != x
  {
    var k := IndexOf(s, x);
    if k < |s| {
      forall y | y in s && y != x
        ensures y in Without(s, x)
      {
        var j :| 0 <= j < |s| && s[j] == y;
        assert Without(s, x)[if j < k then j else j - 1] == y;
      }
    }
  }

  // ---------- the level ----------

  class Level {
    const level: nat
    var occupied: Word
    const slot: array<EntryList>
    ghost var repr: set<object>

    // Bit `i` of the word is set exactly if list `i` has entries, and every entry is in the list
    // of its own time.  In particular no entry is in two lists.
    ghost predicate Valid()
      reads this, repr
    {
      && this in repr && slot in repr && slot.Length == 64 && level <= LEVEL_MAX
      && (forall i :: 0 <= i < 64 ==> ListValid(slot[i], i))
      && (forall i, j :: 0 <= i < j < 64 ==> slot[i] != slot[j])
    }

    ghost predicate ListValid(list: EntryList, i: nat)
      requires this in repr
      reads this, repr
    {
      ListShape(list, i) && (Bit(occupied, i) <==> list.nodes != [])
    }

    ghost predicate ListShape(list: EntryList, i: nat)
      requires this in repr
      reads this, repr
    {
      && list in repr
      && (forall n :: n in list.nodes ==> n in repr && SlotFor(n.value, level) == i)
      && list.Valid()
    }

    // The entries of every list, from head to tail.
    ghost function Lists(): (lists: seq<seq<Entry>>)
      requires Valid()
      reads this, repr
      ensures |lists| == 64 && forall i :: 0 <= i < 64 ==> lists[i] == slot[i].nodes
    {
      seq(64, i requires 0 <= i < 64 && Valid() reads this, repr => slot[i].nodes)
    }

    constructor (level: nat)
      requires level <= LEVEL_MAX
      ensures Valid() && fresh(repr) && this.level == level
      ensures Lists() == seq(64, i => [])
    {
      this.level := level;
      occupied := 0;
      var empty: EntryList := new LinkedList<Word>();
      slot := new EntryList[64](_ => empty);
      new;
      repr := {this, slot};
      for i := 0 to 64
        invariant fresh(repr) && this in repr && slot in repr && slot.Length == 64 && occupied == 0
        invariant forall j :: 0 <= j < i ==> slot[j] in repr && slot[j].Valid() && slot[j].nodes == []
        invariant forall j, k :: 0 <= j < k < i ==> slot[j] != slot[k]
      {
        var list: EntryList := new LinkedList<Word>();
        slot[i] := list;
        repr := repr + {list};
      }
      forall i: nat | i < 64
        ensures ListValid(slot[i], i)
      {
        BitOfZero(i);
      }
    }

    function NextExpiration(now: Word): Option<Expiration>
      requires level <= LEVEL_MAX && now + LevelRange(level) <= MAX
      reads this
    {
      Expires(level, occupied, now)
    }

    method AddEntry(item: Entry)
      requires Valid() && item !in repr
      modifies this, repr, item
      ensures Valid() && repr == old(repr) + {item}
      ensures var s := SlotFor(item.value, level); Lists() == old(Lists())[s := [item] + old(Lists())[s]]
    {
      var s := SlotFor(item.value, level);
      AddToList(item, s);
      BitSet(occupied, s, s);
      occupied := Or(occupied, OccupiedBit(s));
      forall i: nat | i < 64
        ensures ListValid(slot[i], i)
      {
        assert old(ListValid(slot[i], i));
        BitSet(old(occupied), s, i);
      }
    }

    method AddToList(item: Entry, s: nat)
      requires Valid() && s == SlotFor(item.value, level) && item !in repr
      modifies this`repr, repr - {this, slot}, item
      ensures this in repr && repr == old(repr) + {item}
      ensures forall i: nat :: i < 64 ==> ListShape(slot[i], i)
      ensures forall i: nat :: i < 64 && i != s ==> slot[i].nodes == old(Lists())[i]
      ensures slot[s].nodes == [item] + old(Lists())[s]
    {
      assert ListValid(slot[s], s);
      slot[s].PushFront(item);
      repr := repr + {item};
      forall i: nat | i < 64
        ensures ListShape(slot[i], i)
      {
        assert old(ListValid(slot[i], i));
        assert i != s ==> forall n :: n in slot[i].nodes ==> n !in old(slot[s].nodes) && n != item;
        assert i != s ==> forall n :: n in slot[i].nodes ==> n.prev == old(n.prev) && n.next == old(n.next);
      }
    }

    // The caller promises that the entry is in the list of its own time or in no list at all.  A
    // stray entry changes nothing, unless the list of its time is empty: then the debug assertion
    // fails, and the exclusive or sets the bit of the empty list.
    method RemoveEntry(item: Entry) returns (assertionHolds: bool)
      requires Valid() && (item in Lists()[SlotFor(item.value, level)] || item.Clean())
      modifies this, repr, item
      ensures this in repr && repr == old(repr) - {item} && item.Clean()
      ensures var s := SlotFor(item.value, level);
        var before := old(Lists());
        && (Valid() <==> item in before[s] || before[s] != [])
        && assertionHolds == Valid()
        && (Valid() ==> Lists() == before[s := Without(before[s], item)])
        && (!Valid() ==> slot[..] == old(slot[..]) && forall i :: 0 <= i < 64 ==>
             && ListShape(slot[i], i) && slot[i].nodes == before[i]
             && (Bit(occupied, i) <==> slot[i].nodes != [] || i == s))
    {
      var s := SlotFor(item.value, level);
      ghost var contained := item in Lists()[s];
      assert ListValid(slot[s], s);
      RemoveFromList(item, s);
      assertionHolds := true;
      if slot[s].IsEmpty() {
        TestsBit(occupied, s);
        assertionHolds := And(occupied, OccupiedBit(s)) != 0;
        BitFlipped(occupied, s, s);
        occupied := Xor(occupied, OccupiedBit(s));
      }
      forall i: nat | i < 64
        ensures ListShape(slot[i], i)
        ensures Bit(occupied, i) <==> slot[i].nodes != [] || (i == s && !contained)
      {
        assert old(ListValid(slot[i], i));
        BitFlipped(old(occupied), s, i);
      }
      assert ListValid(slot[s], s) <==> contained || slot[s].nodes != [];
    }

    method RemoveFromList(item: Entry, s: nat)
      requires Valid() && s == SlotFor(item.value, level)
      requires item in Lists()[s] || item.Clean()
      modifies this`repr, repr - {this, slot}, item
      ensures this in repr && repr == old(repr) - {item} && item.Clean()
      ensures forall i: nat :: i < 64 ==> ListShape(slot[i], i)
      ensures forall i: nat :: i < 64 && i != s ==> slot[i].nodes == old(Lists())[i]
      ensures slot[s].nodes == Without(old(Lists())[s], item)
    {
      assert ListValid(slot[s], s);
      WithoutKeepsOthers(slot[s].nodes, item);
      var removed := slot[s].Remove(item);
      repr := repr - {item};
      forall i: nat | i < 64
        ensures ListShape(slot[i], i)
      {
        assert old(ListValid(slot[i], i));
        if i != s {
          assert forall n :: n in slot[i].nodes ==> n !in old(slot[s].nodes) && n != item;
          assert forall n :: n in slot[i].nodes ==> n.prev == old(n.prev) && n.next == old(n.next);
        }
      }
    }

    // The list of a slot is handed over whole, and an empty one takes its place.
    method TakeSlot(s: nat) returns (taken: EntryList)
      requires Valid() && s < 64
      modifies this, slot
      ensures Valid() && Lists() == old(Lists())[s := []]
      ensures taken == old(slot[s]) && taken.Valid() && taken.nodes == old(Lists())[s]
      ensures taken !in repr && forall n :: n in taken.nodes ==> n !in repr
    {
      taken := slot[s];
      assert ListValid(taken, s);
      BitCleared(occupied, s, s);
      occupied := And(occupied, Not(OccupiedBit(s)));
      var empty: EntryList := new LinkedList<Word>();
      slot[s] := empty;
      repr := repr - {taken} - Elements(taken.nodes) + {empty};
      forall i: nat | i < 64
        ensures ListValid(slot[i], i)
      {
        assert i != s ==> old(ListValid(slot[i], i));
        BitCleared(old(occupied), s, i);
        assert i != s ==> forall n :: n in slot[i].nodes ==> n !in taken.nodes;
      }
    }
  }

  // ---------- no timer is missed ----------

  // The instants of the `rotation` slots after slot `q`.
  predicate InWindow(when: nat, level: nat, q: nat, slots: nat) {
    SlotStart(q + 1, level) <= when < SlotStart(q + 1 + slots, level)
  }

  ghost predicate EntriesWithin(l: Level, q: nat, slots: nat)
    requires l.Valid()
    reads l, l.repr
  {
    forall i, n :: 0 <= i < 64 && n in l.Lists()[i] ==> InWindow(n.value, l.level, q, slots)
  }

  ghost predicate NoneEarlier(l: Level, deadline: nat)
    requires l.Valid()
    reads l, l.repr
  {
    forall i, n :: 0 <= i < 64 && n in l.Lists()[i] ==> deadline <= n.value
  }

  lemma {:induction false} WindowSlot(when: nat, level: nat, q: nat, slots: nat)
    requires slots >= 1 && InWindow(when, level, q, slots)
    ensures var w := SlotNumber(when, level);
      q < w <= q + slots && SlotStart(w, level) <= when < SlotStart(w + 1, level)
  {
    var w := SlotNumber(when, level);
    SlotEncloses(when, level);
    if w < q {
      SlotStartMono(w + 1, q + 1, level);
    }
    if w > q + slots + 1 {
      SlotStartMono(q + 1 + slots, w, level);
    }
  }

  // An entry in the window lies in a slot that is due.
  lemma {:induction false} EntryIsDue(l: Level, now: Word, i: nat, n: Entry)
    requires l.Valid() && i < 64 && n in l.Lists()[i]
    requires InWindow(n.value, l.level, SlotNumber(now, l.level), 64)
    ensures var w := SlotNumber(n.value, l.level);
      i == w % 64 && DueAfter(l.level, l.occupied, now, w)
  {
    var q, w := SlotNumber(now, l.level), SlotNumber(n.value, l.level);
    assert l.ListValid(l.slot[i], i);
    SlotForIsDivision(n.value, l.level);
    WindowSlot(n.value, l.level, q, 64);
    SlotEncloses(now, l.level);
    if q + 1 < w {
      SlotStartMono(q + 1, w, l.level);
    }
  }

  lemma SameSlot(q: nat, a: nat, b: nat)
    requires q < a <= q + 64 && q < b <= q + 64 && a % 64 == b % 64
    ensures a == b
  {}

  // Timers are at most one rotation ahead.  Then the deadline is not later than any timer if
  // and only if the current slot is empty or is the only occupied one; and in that case the list
  // of the slot holds exactly the timers that fall into the slot's interval.
  lemma {:induction false} NoTimerMissedExactly(l: Level, now: Word)
    requires l.Valid() && now + LevelRange(l.level) <= MAX && l.occupied != 0
    requires EntriesWithin(l, SlotNumber(now, l.level), 64)
    ensures NoneEarlier(l, l.NextExpiration(now).value.deadline) <==> NothingBehindCurrent(l.level, l.occupied, now)
  {
    var q, found := SlotNumber(now, l.level), Found(l.level, l.occupied, now);
    DeadlineIsDue(l.level, l.occupied, now);
    if NothingBehindCurrent(l.level, l.occupied, now) {
      forall i: nat, n | i < 64 && n in l.Lists()[i]
        ensures SlotStart(found, l.level) <= n.value
      {
        EntryIsDue(l, now, i, n);
        FoundIsNearest(l.level, l.occupied, now, SlotNumber(n.value, l.level));
        SlotEncloses(n.value, l.level);
      }
    } else {
      var j: nat :| 0 < j < 64 && OccupiedAfter(l.level, l.occupied, now, j);
      MissedTimer(l, now, j);
    }
  }

  lemma {:induction false} MissedTimer(l: Level, now: Word, j: nat)
    requires l.Valid() && EntriesWithin(l, SlotNumber(now, l.level), 64)
    requires 0 < j < 64 && OccupiedAfter(l.level, l.occupied, now, j) && OccupiedAfter(l.level, l.occupied, now, 0)
    ensures !NoneEarlier(l, SlotStart(Found(l.level, l.occupied, now), l.level))
  {
    var q := SlotNumber(now, l.level);
    var i := (q + j) % 64;
    assert l.ListValid(l.slot[i], i);
    var n := l.Lists()[i][0];
    EntryAhead(l, now, j, n);
    SlotNumberBefore(n.value, q + 64, l.level);
  }

  lemma {:induction false} EntryAhead(l: Level, now: Word, j: nat, n: Entry)
    requires l.Valid() && EntriesWithin(l, SlotNumber(now, l.level), 64) && 0 < j < 64
    requires n in l.Lists()[(SlotNumber(now, l.level) + j) % 64]
    ensures SlotNumber(n.value, l.level) == SlotNumber(now, l.level) + j
  {
    var q := SlotNumber(now, l.level);
    EntryIsDue(l, now, (q + j) % 64, n);
    WindowSlot(n.value, l.level, q, 64);
    SameSlot(q, SlotNumber(n.value, l.level), q + j);
  }

  // With every timer in one of the 63 slots after the current one, no timer is missed: the
  // deadline is not later than any of them, and taking its slot takes exactly the timers due in
  // the slot's interval.
  lemma {:induction false} NoTimerMissed(l: Level, now: Word)
    requires l.Valid() && now + LevelRange(l.level) <= MAX && l.occupied != 0
    requires EntriesWithin(l, SlotNumber(now, l.level), 63)
    ensures var e := l.NextExpiration(now).value;
      && e.slot < 64
      && NoneEarlier(l, e.deadline)
      && forall i, n :: 0 <= i < 64 && n in l.Lists()[i] ==>
           (i == e.slot <==> e.deadline <= n.value < e.deadline + SlotRange(l.level))
  {
    var q, found := SlotNumber(now, l.level), Found(l.level, l.occupied, now);
    WindowWidens(l, q);
    CurrentIsEmpty(l, now);
    NoTimerMissedExactly(l, now);
    DeadlineIsDue(l.level, l.occupied, now);
    DueIsAhead(l.level, l.occupied, now, found);
    forall i: nat, n | i < 64 && n in l.Lists()[i]
      ensures i == found % 64 <==> SlotStart(found, l.level) <= n.value < SlotStart(found + 1, l.level)
    {
      EntryIsDue(l, now, i, n);
      WindowSlot(n.value, l.level, q, 64);
      if i == found % 64 {
        SameSlot(q, SlotNumber(n.value, l.level), found);
      } else if SlotStart(found, l.level) <= n.value < SlotStart(found + 1, l.level) {
        SlotNumberOf(n.value, found, l.level);
      }
    }
  }

  lemma {:induction false} WindowWidens(l: Level, q: nat)
    requires l.Valid() && EntriesWithin(l, q, 63)
    ensures EntriesWithin(l, q, 64)
  {
    SlotStartMono(q + 64, q + 65, l.level);
  }

  lemma {:induction false} CurrentIsEmpty(l: Level, now: Word)
    requires l.Valid() && EntriesWithin(l, SlotNumber(now, l.level), 63)
    ensures !OccupiedAfter(l.level, l.occupied, now, 0)
  {
    var i := SlotNumber(now, l.level) % 64;
    assert l.ListValid(l.slot[i], i);
    WindowWidens(l, SlotNumber(now, l.level));
    if OccupiedAfter(l.level, l.occupied, now, 0) {
      NotInCurrent(l, now, i, l.Lists()[i][0]);
    }
  }

  lemma {:induction false} NotInCurrent(l: Level, now: Word, i: nat, n: Entry)
    requires l.Valid() && i < 64 && n in l.Lists()[i]
    requires EntriesWithin(l, SlotNumber(now, l.level), 63) && EntriesWithin(l, SlotNumber(now, l.level), 64)
    ensures i != SlotNumber(now, l.level) % 64
  {
    var q, w := SlotNumber(now, l.level), SlotNumber(n.value, l.level);
    EntryIsDue(l, now, i, n);
    WindowSlot(n.value, l.level, q, 63);
    OtherSlot(q, w);
  }

  lemma OtherSlot(q: nat, w: nat)
    requires q < w < q + 64
    ensures w % 64 != q % 64
  {}

  // ---------- the assertion on the top level ----------

  // Only the highest of the wheel's levels may add a rotation to a deadline.
  predicate TopLevelAssertion(level: nat, occupied: Word, now: Word, numLevels: nat)
    requires level <= LEVEL_MAX
  {
    var slot := NextOccupiedSlot(level, occupied, now);
    slot.Some? && SlotDeadline(level, slot.value, now) <= now ==> level + 1 == numLevels
  }

  // The first slot of the next rotation.
  function NextRotationSlot(now: Word, level: nat): nat {
    var q := SlotNumber(now, level);
    q - q % 64 + 64
  }

  // On a lower level the assertion holds if and only if the slot found lies behind the current
  // one and before the end of the rotation.
  lemma {:induction false} AssertionExactly(level: nat, occupied: Word, now: Word, numLevels: nat)
    requires level <= LEVEL_MAX && occupied != 0
    ensures TopLevelAssertion(level, occupied, now, numLevels)
       <==> level + 1 == numLevels || SlotNumber(now, level) < Found(level, occupied, now) < NextRotationSlot(now, level)
  {
    var q, k := SlotNumber(now, level), Scan(level, occupied, now, 0);
    SearchIsScan(level, occupied, now);
    DeadlineValue(level, now, k);
  }

  ghost predicate SomeTimerBefore(l: Level, end: nat)
    requires l.Valid()
    reads l, l.repr
  {
    exists i, n :: 0 <= i < 64 && n in l.Lists()[i] && n.value < end
  }

  // With every timer in one of the 63 slots after the current one, the assertion holds on a
  // lower level if and only if some timer is due before the end of the rotation.
  lemma {:induction false} TopLevelAssertionExactly(l: Level, now: Word, numLevels: nat)
    requires l.Valid() && l.occupied != 0 && EntriesWithin(l, SlotNumber(now, l.level), 63)
    ensures TopLevelAssertion(l.level, l.occupied, now, numLevels)
       <==> l.level + 1 == numLevels || SomeTimerBefore(l, SlotStart(NextRotationSlot(now, l.level), l.level))
  {
    AssertionExactly(l.level, l.occupied, now, numLevels);
    SearchIsScan(l.level, l.occupied, now);
    WindowWidens(l, SlotNumber(now, l.level));
    FoundBeforeExactly(l, now, NextRotationSlot(now, l.level));
  }

  lemma {:induction false} FoundBeforeExactly(l: Level, now: Word, end: nat)
    requires l.Valid() && l.occupied != 0
    requires EntriesWithin(l, SlotNumber(now, l.level), 63) && EntriesWithin(l, SlotNumber(now, l.level), 64)
    ensures Found(l.level, l.occupied, now) < end <==> SomeTimerBefore(l, SlotStart(end, l.level))
  {
    var found := Found(l.level, l.occupied, now);
    if found < end {
      var n := FirstTimer(l, now);
      SlotNumberBefore(n.value, end, l.level);
    }
    forall i: nat, n | i < 64 && n in l.Lists()[i] && n.value < SlotStart(end, l.level)
      ensures found < end
    {
      EntryIsDue(l, now, i, n);
      CurrentIsEmpty(l, now);
      FoundIsNearest(l.level, l.occupied, now, SlotNumber(n.value, l.level));
      SlotNumberBefore(n.value, end, l.level);
    }
  }

  // The list of the slot found holds a timer of that very slot.
  lemma {:induction false} FirstTimer(l: Level, now: Word) returns (n: Entry)
    requires l.Valid() && l.occupied != 0 && EntriesWithin(l, SlotNumber(now, l.level), 64)
    ensures var found := Found(l.level, l.occupied, now);
      n in l.Lists()[found % 64] && SlotNumber(n.value, l.level) == found
  {
    var q, found := SlotNumber(now, l.level), Found(l.level, l.occupied, now);
    SearchIsScan(l.level, l.occupied, now);
    FoundIsDue(l.level, l.occupied, now);
    assert l.ListValid(l.slot[found % 64], found % 64);
    n := l.Lists()[found % 64][0];
    EntryIsDue(l, now, found % 64, n);
    WindowSlot(n.value, l.level, q, 64);
    SameSlot(q, SlotNumber(n.value, l.level), found);
  }

  // After the slot is processed at its deadline, the remaining timers lie in the window of the
  // new current slot again, so the search can go on from there.
  lemma {:induction false} WindowAdvances(level: nat, q: nat, found: nat, when: nat)
    requires q < found <= q + 63 && InWindow(when, level, q, 63)
    requires SlotStart(found, level) + SlotRange(level) <= when
    ensures SlotNumber(SlotStart(found, level), level) == found && InWindow(when, level, found, 63)
  {
    SlotNumberOfStart(found, level);
    SlotStartMono(q + 64, found + 64, level);
  }
}
