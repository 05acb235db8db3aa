// The memory layout of a task (src/task/utils.rs and `eval_task_layout` of src/task/raw.rs):
// wrapping and checked word arithmetic against the mathematical layout.
module TaskLayout {
  import opened Options
  import opened MachineWord

  datatype Layout = Layout(size: Word, align: Word)

  function Max(left: Word, right: Word): (m: Word)
    ensures left <= m && right <= m && (m == left || m == right)
  {
    if left > right then left else right
  }

  function CheckedAdd(x: Word, y: Word): Option<Word> {
    if x + y < MODULUS then Some(x + y) else None
  }

  predicate IsPow2(x: nat) {
    x == 1 || (x > 1 && x % 2 == 0 && IsPow2(x / 2))
  }

  // The padding that aligns the address following `size` bytes.
  function PaddingNeededFor(size: Word, align: Word): Word {
    var roundedUp := And(WrappingSub(WrappingAdd(size, align), 1), Not(WrappingSub(align, 1)));
    WrappingSub(roundedUp, size)
  }

  // `a` followed by `b`, and the offset of `b`.
  function Extend(a: Layout, b: Layout): Option<(Layout, Word)> {
    var newAlign := Max(a.align, b.align);
    var pad := PaddingNeededFor(a.size, b.align);
    match CheckedAdd(a.size, pad)
    case None => None
    case Some(offset) =>
      match CheckedAdd(offset, b.size)
      case None => None
      case Some(newSize) =>
        if !IsPow2(newAlign) || newSize > MAX - (newAlign - 1) then None
        else Some((Layout(newSize, newAlign), offset))
  }

  datatype Parts = Parts(layout: Layout, offsetScheduler: Word, offsetFuture: Word, offsetOutput: Word)

  // The header, then the scheduler, then the future and the output sharing one region.
  function EvalTaskLayout(header: Layout, scheduler: Layout, future: Layout, output: Layout): Option<Parts> {
    var union := Layout(Max(future.size, output.size), Max(future.align, output.align));
    match Extend(header, scheduler)
    case None => None
    case Some((layout, offsetScheduler)) =>
      match Extend(layout, union)
      case None => None
      case Some((whole, offsetUnion)) => Some(Parts(whole, offsetScheduler, offsetUnion, offsetUnion))
  }

  // ---------- the mathematical layout ----------

  // `n` rounded up to a multiple of `a`.
  function RoundUp(n: nat, a: nat): nat
    requires a > 0
  {
    if n == 0 then 0 else if n <= a then a else a + RoundUp(n - a, a)
  }

  lemma {:induction false} RoundUpIsDivision(n: nat, a: nat)
    requires a > 0
    ensures RoundUp(n, a) == if n % a == 0 then n else n - n % a + a
  {
    DivMod(n, a);
    if n < a {
      DivUnique(n, a, 0, n);
    } else {
      var q, r := n / a, n % a;
      assert a * (q - 1) == a * q - a;
      DivUnique(n - a, a, q - 1, r);
      RoundUpIsDivision(n - a, a);
    }
  }

  ghost predicate LeastMultiple(r: nat, n: nat, a: nat)
    requires a > 0
  {
    r % a == 0 && n <= r && forall m: nat :: m % a == 0 && n <= m ==> r <= m
  }

  lemma DivMod(n: nat, a: nat)
    requires a > 0
    ensures n == a * (n / a) + n % a && n % a < a
  {}

  lemma {:induction false} MultipleDown(n: nat, a: nat)
    requires a > 0
    ensures (n - n % a) % a == 0
  {
    DivMod(n, a);
    DivUnique(n - n % a, a, n / a, 0);
  }

  lemma {:induction false} MultipleUp(n: nat, a: nat)
    requires a > 0 && n % a == 0
    ensures (n + a) % a == 0
  {
    DivMod(n, a);
    assert a * (n / a + 1) == a * (n / a) + a;
    DivUnique(n + a, a, n / a + 1, 0);
  }

  // Two multiples of `a` that differ differ by at least `a`.
  lemma {:induction false} MultiplesApart(x: nat, y: nat, a: nat)
    requires a > 0 && x % a == 0 && y % a == 0 && x < y
    ensures x + a <= y
  {
    DivMod(x, a);
    DivMod(y, a);
    if y / a <= x / a {
      MulMono(a, y / a, x / a);
      assert false;
    }
    MulMono(a, x / a + 1, y / a);
    assert a * (x / a + 1) == a * (x / a) + a;
  }

  lemma {:induction false} RoundUpIsLeast(n: nat, a: nat)
    requires a > 0
    ensures LeastMultiple(RoundUp(n, a), n, a) && RoundUp(n, a) < n + a
  {
    RoundUpIsDivision(n, a);
    DivMod(n, a);
    MultipleDown(n, a);
    if n % a != 0 {
      MultipleUp(n - n % a, a);
      forall m: nat | m % a == 0 && n <= m
        ensures RoundUp(n, a) <= m
      {
        MultiplesApart(n - n % a, m, a);
      }
    }
  }

  lemma {:induction false} RoundUpBounds(n: nat, a: nat)
    requires a > 0
    ensures n <= RoundUp(n, a) < n + a
  {
    if n > a {
      RoundUpBounds(n - a, a);
    }
  }

  // ---------- powers of two ----------

  ghost predicate PowerOfTwo(x: nat) {
    exists k: nat :: x == Pow2(k)
  }

  // The test by halving accepts exactly the powers of two.
  lemma {:induction false} IsPow2Exactly(x: nat)
    ensures IsPow2(x) <==> PowerOfTwo(x)
  {
    if IsPow2(x) {
      var k := Exponent(x);
    }
    if PowerOfTwo(x) {
      var k: nat :| x == Pow2(k);
      Pow2Passes(k);
    }
  }

  lemma {:induction false} Pow2Passes(k: nat)
    ensures IsPow2(Pow2(k))
  {
    if k > 0 {
      Pow2Passes(k - 1);
      assert Pow2(k) == 2 * Pow2(k - 1);
    }
  }

  lemma {:induction false} Exponent(a: nat) returns (k: nat)
    requires IsPow2(a)
    ensures a == Pow2(k) && a > 0
  {
    if a == 1 {
      k := 0;
    } else {
      k := Exponent(a / 2);
      k := k + 1;
    }
  }

  lemma {:induction false} WordExponent(a: Word) returns (k: nat)
    requires IsPow2(a)
    ensures a == Pow2(k) && a > 0 && k < 64
  {
    k := Exponent(a);
    Pow2Word();
    if k >= 64 {
      Pow2Monotone(64, k);
      assert false;
    }
  }

  lemma {:induction false} SmallerDivides(j: nat, k: nat)
    requires j <= k
    ensures Pow2(k) % Pow2(j) == 0
    decreases k
  {
    if j == k {
      DivUnique(Pow2(k), Pow2(j), 1, 0);
    } else {
      SmallerDivides(j, k - 1);
      Doubled(Pow2(k - 1), Pow2(j));
    }
  }

  lemma {:induction false} Doubled(x: nat, a: nat)
    requires a > 0 && x % a == 0
    ensures (2 * x) % a == 0
  {
    DivMod(x, a);
    assert a * (2 * (x / a)) == 2 * x;
    DivUnique(2 * x, a, 2 * (x / a), 0);
  }

  // Of two powers of two the smaller divides the larger, and both divide the word modulus.
  lemma {:induction false} Pow2Divides(a: Word, b: Word)
    requires IsPow2(a) && IsPow2(b)
    ensures a > 0 && b > 0 && MODULUS % a == 0
    ensures a <= b ==> b % a == 0
  {
    var j := WordExponent(a);
    var k := Exponent(b);
    Pow2Word();
    SmallerDivides(j, 64);
    if j <= k {
      SmallerDivides(j, k);
    } else {
      Pow2Monotone(k, j);
    }
  }

  // ---------- padding ----------

  // Unless rounding up leaves the word, the padding is what rounding up adds; otherwise the
  // wrapped padding makes the following checked addition overflow.
  lemma {:induction false} PaddingIsExact(size: Word, align: Word)
    requires IsPow2(align)
    ensures align > 0
    ensures size + PaddingNeededFor(size, align) == RoundUp(size, align)
         || (size + PaddingNeededFor(size, align) >= MODULUS && RoundUp(size, align) >= MODULUS)
  {
    Pow2Divides(align, align);
    var x := WrappingSub(WrappingAdd(size, align), 1);
    MaskRoundsDown(x, align);
    WrappedSum(size, align);
    if size + align - 1 < MODULUS {
      RoundDownOfSum(size, align);
      RoundUpIsLeast(size, align);
      WrappedDifference(RoundUp(size, align), size);
    } else {
      DivUnique(x, align, 0, x);
      PastTheEnd(size, align);
      WrappedDifference(0, size);
    }
  }

  lemma {:induction false} MaskRoundsDown(x: Word, align: Word)
    requires IsPow2(align)
    ensures align > 0 && And(x, Not(WrappingSub(align, 1))) == x - x % align
  {
    var k := WordExponent(align);
    WrappedDifference(align, 1);
    RoundDownMask(x, k);
  }

  lemma WrappedSum(size: Word, align: Word)
    requires align > 0
    ensures WrappingSub(WrappingAdd(size, align), 1)
         == if size + align - 1 < MODULUS then size + align - 1 else size + align - 1 - MODULUS
  {}

  lemma WrappedDifference(x: nat, y: Word)
    ensures y <= x < MODULUS ==> WrappingSub(x, y) == x - y
    ensures x < y ==> WrappingSub(x, y) == x - y + MODULUS
  {}

  lemma {:induction false} RoundDownOfSum(size: nat, a: nat)
    requires a > 0
    ensures size + a - 1 >= 0
    ensures (size + a - 1) - (size + a - 1) % a == RoundUp(size, a)
  {
    var t := size + a - 1;
    RoundUpIsLeast(size, a);
    MultipleDown(t, a);
    DivMod(t, a);
    var r := t - t % a;
    if RoundUp(size, a) < r {
      MultiplesApart(RoundUp(size, a), r, a);
    }
  }

  lemma {:induction false} PastTheEnd(size: Word, a: nat)
    requires a > 0 && MODULUS % a == 0 && size + a - 1 >= MODULUS
    ensures RoundUp(size, a) >= MODULUS
  {
    RoundUpIsLeast(size, a);
    if RoundUp(size, a) < MODULUS {
      MultiplesApart(RoundUp(size, a), MODULUS, a);
    }
  }

  // A size fits with its trailing padding exactly if it passes the check in `Extend`.
  lemma {:induction false} FitsExactly(size: nat, a: Word)
    requires IsPow2(a)
    ensures a > 0 && (RoundUp(size, a) <= MAX <==> size <= MAX - (a - 1))
  {
    Pow2Divides(a, a);
    RoundUpIsLeast(size, a);
    if RoundUp(size, a) < MODULUS {
      MultiplesApart(RoundUp(size, a), MODULUS, a);
    }
  }

  // ---------- main results ----------

  // `Extend` succeeds exactly if the mathematical layout, rounded up to the larger alignment,
  // fits in a word; then the second part starts at the least aligned offset behind the first.
  lemma {:induction false} ExtendExactly(a: Layout, b: Layout)
    requires PowerOfTwo(a.align) && PowerOfTwo(b.align)
    ensures b.align > 0 && Max(a.align, b.align) > 0
    ensures Extend(a, b).Some? <==> RoundUp(RoundUp(a.size, b.align) + b.size, Max(a.align, b.align)) <= MAX
    ensures Extend(a, b).Some? ==>
      var (layout, offset) := Extend(a, b).value;
      && LeastMultiple(offset, a.size, b.align)
      && layout.size == offset + b.size && layout.align == Max(a.align, b.align) && PowerOfTwo(layout.align)
  {
    ExtendIsLaid(a, b);
    RoundUpIsLeast(a.size, b.align);
    RoundUpBounds(RoundUp(a.size, b.align) + b.size, Max(a.align, b.align));
  }

  // An alignment that is no power of two is refused.
  lemma {:induction false} ExtendRefuses(a: Layout, b: Layout)
    requires !PowerOfTwo(Max(a.align, b.align))
    ensures Extend(a, b).None?
  {
    IsPow2Exactly(Max(a.align, b.align));
  }

  // Every base address aligned to `whole` puts `offset` at an address aligned to `part`.
  ghost predicate AlignedIn(offset: nat, part: nat, whole: nat)
    requires part > 0 && whole > 0
  {
    forall base: nat :: base % whole == 0 ==> (base + offset) % part == 0
  }

  lemma {:induction false} AlignedOffset(offset: nat, part: nat, whole: nat)
    requires part > 0 && whole > 0 && whole % part == 0 && offset % part == 0
    ensures AlignedIn(offset, part, whole)
  {
    forall base: nat | base % whole == 0
      ensures (base + offset) % part == 0
    {
      Divides(base, whole, part);
      DivMod(base, part);
      DivMod(offset, part);
      assert part * (base / part + offset / part) == part * (base / part) + part * (offset / part);
      DivUnique(base + offset, part, base / part + offset / part, 0);
    }
  }

  lemma {:induction false} Divides(x: nat, whole: nat, part: nat)
    requires whole > 0 && part > 0 && x % whole == 0 && whole % part == 0
    ensures x % part == 0
  {
    DivMod(x, whole);
    DivMod(whole, part);
    assert part * ((whole / part) * (x / whole)) == whole * (x / whole);
    DivUnique(x, part, (whole / part) * (x / whole), 0);
  }

  ghost predicate Aligned4(header: Layout, scheduler: Layout, future: Layout, output: Layout) {
    PowerOfTwo(header.align) && PowerOfTwo(scheduler.align) && PowerOfTwo(future.align) && PowerOfTwo(output.align)
  }

  // When the layout exists, the header, the scheduler and the region shared by future and output
  // follow each other without overlap inside it, the region holds either, and no part could
  // start earlier in that order.
  lemma {:induction false} PartsFit(header: Layout, scheduler: Layout, future: Layout, output: Layout)
    requires Aligned4(header, scheduler, future, output)
    ensures scheduler.align > 0 && Max(future.align, output.align) > 0
    ensures var r := EvalTaskLayout(header, scheduler, future, output);
      r.Some? ==>
        var p := r.value;
        && p.offsetFuture == p.offsetOutput
        && p.layout.align == Max(Max(header.align, scheduler.align), Max(future.align, output.align))
        && p.layout.size == p.offsetFuture + Max(future.size, output.size)
        && header.size <= p.offsetScheduler
        && p.offsetScheduler + scheduler.size <= p.offsetFuture
        && p.offsetFuture + future.size <= p.layout.size && p.offsetOutput + output.size <= p.layout.size
        && LeastMultiple(p.offsetScheduler, header.size, scheduler.align)
        && LeastMultiple(p.offsetFuture, p.offsetScheduler + scheduler.size, Max(future.align, output.align))
  {
    ExtendExactly(header, scheduler);
    if Extend(header, scheduler).Some? {
      var layout := Extend(header, scheduler).value.0;
      ExtendExactly(layout, Layout(Max(future.size, output.size), Max(future.align, output.align)));
    } else {
      IsPow2Exactly(future.align);
      IsPow2Exactly(output.align);
      Pow2Divides(future.align, output.align);
    }
  }

  // Every part is aligned whenever the task is.
  lemma {:induction false} PartsAligned(header: Layout, scheduler: Layout, future: Layout, output: Layout)
    requires Aligned4(header, scheduler, future, output)
    ensures header.align > 0 && scheduler.align > 0 && future.align > 0 && output.align > 0
    ensures var r := EvalTaskLayout(header, scheduler, future, output);
      r.Some? ==>
        var p := r.value;
        && p.layout.align > 0
        && AlignedIn(0, header.align, p.layout.align)
        && AlignedIn(p.offsetScheduler, scheduler.align, p.layout.align)
        && AlignedIn(p.offsetFuture, future.align, p.layout.align)
        && AlignedIn(p.offsetOutput, output.align, p.layout.align)
  {
    LargestAligns(header.align, scheduler.align, future.align, output.align);
    PartsFit(header, scheduler, future, output);
    if EvalTaskLayout(header, scheduler, future, output).Some? {
      var p := EvalTaskLayout(header, scheduler, future, output).value;
      var union := Max(future.align, output.align);
      Divides(p.offsetFuture, union, future.align);
      Divides(p.offsetFuture, union, output.align);
      AlignedOffset(0, header.align, p.layout.align);
      AlignedOffset(p.offsetScheduler, scheduler.align, p.layout.align);
      AlignedOffset(p.offsetFuture, future.align, p.layout.align);
      AlignedOffset(p.offsetOutput, output.align, p.layout.align);
    }
  }

  // The layout exists exactly if the parts laid out in that order, each at its least aligned
  // offset and padded at the end, fit in a word.
  lemma {:induction false} TaskLayoutExactly(header: Layout, scheduler: Layout, future: Layout, output: Layout)
    requires Aligned4(header, scheduler, future, output)
    ensures scheduler.align > 0 && Max(future.align, output.align) > 0
    ensures Max(Max(header.align, scheduler.align), Max(future.align, output.align)) > 0
    ensures var first := RoundUp(header.size, scheduler.align) + scheduler.size;
      var union := Max(future.align, output.align);
      var whole := RoundUp(first, union) + Max(future.size, output.size);
      EvalTaskLayout(header, scheduler, future, output).Some?
      <==> RoundUp(whole, Max(Max(header.align, scheduler.align), union)) <= MAX
  {
    var union := Layout(Max(future.size, output.size), Max(future.align, output.align));
    ExtendIsLaid(header, scheduler);
    if Laid(header, scheduler).Some? {
      ExtendIsLaid(Laid(header, scheduler).value, union);
    }
    LaidTwice(header, scheduler, union);
  }

  // The layout of two parts, if it fits in a word, by the rounded sizes.
  function Laid(a: Layout, b: Layout): Option<Layout>
    requires b.align > 0
  {
    var size, align := RoundUp(a.size, b.align) + b.size, Max(a.align, b.align);
    if size < MODULUS && RoundUp(size, align) <= MAX then Some(Layout(size, align)) else None
  }

  lemma {:induction false} ExtendIsLaid(a: Layout, b: Layout)
    requires PowerOfTwo(a.align) && PowerOfTwo(b.align)
    ensures b.align > 0 && PowerOfTwo(Max(a.align, b.align))
    ensures Extend(a, b) == if Laid(a, b).Some? then Some((Laid(a, b).value, RoundUp(a.size, b.align))) else None
  {
    IsPow2Exactly(a.align);
    IsPow2Exactly(b.align);
    var align, start := Max(a.align, b.align), RoundUp(a.size, b.align);
    PaddedSize(a.size, b.align);
    FitsExactly(start + b.size, align);
    RoundUpBounds(start + b.size, align);
  }

  lemma {:induction false} PaddedSize(size: Word, align: Word)
    requires IsPow2(align)
    ensures align > 0
    ensures CheckedAdd(size, PaddingNeededFor(size, align))
         == if RoundUp(size, align) < MODULUS then Some(RoundUp(size, align)) else None
  {
    PaddingIsExact(size, align);
  }

  lemma {:induction false} LaidExactly(a: Layout, b: Layout)
    requires b.align > 0
    ensures var size, align := RoundUp(a.size, b.align) + b.size, Max(a.align, b.align);
      && (Laid(a, b).Some? <==> RoundUp(size, align) <= MAX)
      && (Laid(a, b).Some? ==> Laid(a, b).value.size == size && Laid(a, b).value.align == align)
  {
    RoundUpBounds(RoundUp(a.size, b.align) + b.size, Max(a.align, b.align));
  }

  lemma {:induction false} LaidTwice(a: Layout, b: Layout, c: Layout)
    requires PowerOfTwo(a.align) && PowerOfTwo(b.align) && PowerOfTwo(c.align)
    ensures b.align > 0 && c.align > 0
    ensures var first := RoundUp(a.size, b.align) + b.size;
      Laid(a, b).Some? && Laid(Laid(a, b).value, c).Some?
      <==> RoundUp(RoundUp(first, c.align) + c.size, Max(Max(a.align, b.align), c.align)) <= MAX
  {
    PowersOfTwo(a.align, b.align, c.align);
    if Laid(a, b).Some? {
      LaidBehind(a, b, c);
    } else {
      NeverLaid(a, b, c);
    }
  }

  lemma {:induction false} LaidBehind(a: Layout, b: Layout, c: Layout)
    requires b.align > 0 && c.align > 0 && Laid(a, b).Some?
    ensures Laid(Laid(a, b).value, c).Some?
       <==> RoundUp(RoundUp(RoundUp(a.size, b.align) + b.size, c.align) + c.size, Max(Max(a.align, b.align), c.align)) <= MAX
  {
    LaidExactly(Laid(a, b).value, c);
  }

  lemma {:induction false} NeverLaid(a: Layout, b: Layout, c: Layout)
    requires PowerOfTwo(Max(a.align, b.align)) && PowerOfTwo(c.align) && b.align > 0 && c.align > 0 && Laid(a, b).None?
    ensures RoundUp(RoundUp(RoundUp(a.size, b.align) + b.size, c.align) + c.size, Max(Max(a.align, b.align), c.align)) > MAX
  {
    LaidExactly(a, b);
    PrefixIsSmaller(RoundUp(a.size, b.align) + b.size, Max(a.align, b.align), c);
  }

  // The whole layout is no smaller than its first two parts.
  lemma {:induction false} PrefixIsSmaller(first: nat, align: Word, rest: Layout)
    requires PowerOfTwo(align) && PowerOfTwo(rest.align)
    ensures align > 0 && rest.align > 0
    ensures RoundUp(first, align) <= RoundUp(RoundUp(first, rest.align) + rest.size, Max(align, rest.align))
  {
    IsPow2Exactly(align);
    IsPow2Exactly(rest.align);
    Pow2Divides(rest.align, rest.align);
    RoundUpIsLeast(first, rest.align);
    RoundUpMonotone(first, RoundUp(first, rest.align) + rest.size, align, Max(align, rest.align));
  }

  // More to hold and a coarser alignment never round up to less.
  lemma {:induction false} RoundUpMonotone(n: nat, m: nat, a: Word, b: Word)
    requires IsPow2(a) && IsPow2(b) && n <= m && a <= b
    ensures a > 0 && RoundUp(n, a) <= RoundUp(m, b)
  {
    Pow2Divides(a, b);
    RoundUpIsLeast(n, a);
    RoundUpIsLeast(m, b);
    Divides(RoundUp(m, b), b, a);
  }

  lemma {:induction false} PowersOfTwo(a: Word, b: Word, c: Word)
    requires PowerOfTwo(a) && PowerOfTwo(b) && PowerOfTwo(c)
    ensures a > 0 && b > 0 && c > 0 && PowerOfTwo(Max(a, b)) && PowerOfTwo(Max(Max(a, b), c))
  {}

  // Each alignment divides the largest one.
  lemma {:induction false} LargestAligns(a: Word, b: Word, c: Word, d: Word)
    requires PowerOfTwo(a) && PowerOfTwo(b) && PowerOfTwo(c) && PowerOfTwo(d)
    ensures a > 0 && b > 0 && c > 0 && d > 0
    ensures var u := Max(c, d); u > 0 && u % c == 0 && u % d == 0
    ensures var m := Max(Max(a, b), Max(c, d)); m % a == 0 && m % b == 0 && m % c == 0 && m % d == 0
  {
    IsPow2Exactly(a);
    IsPow2Exactly(b);
    IsPow2Exactly(c);
    IsPow2Exactly(d);
    var u := Max(c, d);
    var m := Max(Max(a, b), u);
    Pow2Divides(c, u);
    Pow2Divides(d, u);
    Pow2Divides(a, m);
    Pow2Divides(b, m);
    Pow2Divides(c, m);
    Pow2Divides(d, m);
  }
}
