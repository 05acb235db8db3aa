// Unsigned 64-bit machine words (`u64`, and `usize` on a 64-bit target) and the operators
// that the runtime applies to them.  A word is a bounded natural number; the bitwise
// operators are defined bit by bit, so that every fact relating them to arithmetic is proved.
module MachineWord {
  const MODULUS: nat := 0x1_0000_0000_0000_0000
  const MAX: nat := MODULUS - 1

  type Word = x: nat | x < MODULUS

  function Pow2(n: nat): (p: nat)
    ensures p >= 1
  {
    if n == 0 then 1 else 2 * Pow2(n - 1)
  }

  // ---------- operators ----------

  function Shr(x: nat, n: nat): nat
    decreases n
  {
    if n == 0 then x else Shr(x / 2, n - 1)
  }

  // `x` shifted left without losing its high bits.
  function Lift(x: nat, n: nat): nat {
    if n == 0 then x else 2 * Lift(x, n - 1)
  }

  // The low `n` bits of `x`.
  function Low(x: nat, n: nat): nat
    decreases n
  {
    if n == 0 then 0 else x % 2 + 2 * Low(x / 2, n - 1)
  }

  predicate Bit(x: nat, k: nat) {
    Shr(x, k) % 2 == 1
  }

  function And(x: nat, y: nat): (r: nat)
    ensures r <= x && r <= y
  {
    if x == 0 || y == 0 then 0
    else (if x % 2 == 1 && y % 2 == 1 then 1 else 0) + 2 * And(x / 2, y / 2)
  }

  function Or(x: nat, y: nat): nat {
    if x == 0 && y == 0 then 0
    else (if x % 2 == 1 || y % 2 == 1 then 1 else 0) + 2 * Or(x / 2, y / 2)
  }

  function Xor(x: nat, y: nat): nat {
    if x == 0 && y == 0 then 0
    else (if x % 2 != y % 2 then 1 else 0) + 2 * Xor(x / 2, y / 2)
  }

  function Not(x: Word): Word {
    MAX - x
  }

  function Shl(x: Word, n: nat): Word {
    Lift(x, n) % MODULUS
  }

  function WrappingAdd(x: Word, y: Word): Word {
    (x + y) % MODULUS
  }

  function WrappingSub(x: Word, y: Word): Word {
    (x - y) % MODULUS
  }

  // The rotation amount is taken modulo the word size.
  function RotateRight(x: Word, amount: nat): Word {
    var n := amount % 64;
    RotateBound(x, n);
    Shr(x, n) + Lift(Low(x, n), 64 - n)
  }

  // Number of zero bits below the lowest set bit; 64 for the zero word.
  function TrailingZeros(x: Word): nat {
    if x == 0 then 64 else if x % 2 == 1 then 0 else 1 + TrailingZeros(x / 2)
  }

  // ---------- powers of two ----------

  lemma {:induction false} Pow2Add(a: nat, b: nat)
    ensures Pow2(a + b) == Pow2(a) * Pow2(b)
  {
    if a > 0 {
      Pow2Add(a - 1, b);
      assert Pow2(a + b) == 2 * Pow2(a - 1 + b);
    }
  }

  lemma {:induction false} Pow2Monotone(a: nat, b: nat)
    requires a <= b
    ensures Pow2(a) <= Pow2(b)
    ensures a < b ==> Pow2(a) < Pow2(b)
  {
    if a < b {
      Pow2Monotone(a, b - 1);
    }
  }

  lemma {:induction false} Pow2Bytes(k: nat)
    ensures Pow2(8 * k) == Bytes(k)
  {
    if k > 0 {
      Pow2Bytes(k - 1);
      var n := 8 * (k - 1);
      assert Pow2(n + 8) == 2 * Pow2(n + 7) == 4 * Pow2(n + 6) == 8 * Pow2(n + 5) == 16 * Pow2(n + 4);
      assert Pow2(n + 4) == 2 * Pow2(n + 3) == 4 * Pow2(n + 2) == 8 * Pow2(n + 1) == 16 * Pow2(n);
    }
  }

  // 256 to the power of `k`.
  function Bytes(k: nat): nat {
    if k == 0 then 1 else 0x100 * Bytes(k - 1)
  }

  lemma Pow2Word()
    ensures Pow2(64) == MODULUS
  {
    Pow2Bytes(8);
  }

  // ---------- shifts ----------

  lemma MulMono(c: nat, a: nat, b: nat)
    requires a <= b
    ensures c * a <= c * b
  {}

  lemma DivUnique(x: nat, d: nat, q: nat, r: nat)
    requires d > 0 && x == d * q + r && r < d
    ensures x / d == q && x % d == r
  {
    var q', r' := x / d, x % d;
    assert x == d * q' + r';
    if q < q' {
      MulMono(d, q + 1, q');
      assert false;
    } else if q > q' {
      MulMono(d, q' + 1, q);
      assert false;
    }
  }

  lemma {:induction false} LiftIsProduct(x: nat, n: nat)
    ensures Lift(x, n) == Pow2(n) * x
  {
    if n > 0 {
      LiftIsProduct(x, n - 1);
    }
  }

  // Every number is its low bits plus its lifted high bits.
  lemma {:induction false} Split(x: nat, n: nat)
    ensures x == Low(x, n) + Lift(Shr(x, n), n) && Low(x, n) < Pow2(n)
    decreases n
  {
    if n > 0 {
      Split(x / 2, n - 1);
    }
  }

  // Shifting right is dividing, and masking is taking the remainder.
  lemma {:induction false} ShrIsDivision(x: nat, n: nat)
    ensures Shr(x, n) == x / Pow2(n) && Low(x, n) == x % Pow2(n)
  {
    Split(x, n);
    LiftIsProduct(Shr(x, n), n);
    DivUnique(x, Pow2(n), Shr(x, n), Low(x, n));
  }

  lemma {:induction false} ShrBound(x: nat, a: nat, b: nat)
    requires x < Pow2(a + b)
    ensures Shr(x, a) < Pow2(b)
    decreases a
  {
    if a > 0 {
      ShrBound(x / 2, a - 1, b);
    }
  }

  lemma {:induction false} LiftBound(high: nat, low: nat, a: nat, b: nat)
    requires high < Pow2(a) && low < Pow2(b)
    ensures low + Lift(high, b) < Pow2(a + b)
    decreases b
  {
    if b > 0 {
      LiftBound(high, low / 2, a, b - 1);
    }
  }

  lemma {:induction false} RotateBound(x: Word, n: nat)
    requires n < 64
    ensures Shr(x, n) + Lift(Low(x, n), 64 - n) < MODULUS
  {
    Pow2Word();
    Split(x, n);
    ShrBound(x, n, 64 - n);
    LiftBound(Low(x, n), Shr(x, n), n, 64 - n);
  }

  lemma BitOfZero(k: nat)
    ensures Shr(0, k) == 0 && !Bit(0, k)
  {
    if k > 0 {
      BitOfZero(k - 1);
    }
  }

  // ---------- bitwise operators, bit by bit ----------

  lemma AndHalf(x: nat, y: nat)
    ensures And(x, y) / 2 == And(x / 2, y / 2)
  {}

  lemma OrHalf(x: nat, y: nat)
    ensures Or(x, y) / 2 == Or(x / 2, y / 2)
  {}

  lemma XorHalf(x: nat, y: nat)
    ensures Xor(x, y) / 2 == Xor(x / 2, y / 2)
  {}

  lemma {:induction false} BitAnd(x: nat, y: nat, k: nat)
    ensures Bit(And(x, y), k) == (Bit(x, k) && Bit(y, k))
    decreases k
  {
    if x == 0 || y == 0 {
      BitOfZero(k);
    } else if k > 0 {
      BitAnd(x / 2, y / 2, k - 1);
      AndHalf(x, y);
    }
  }

  lemma {:induction false} BitOr(x: nat, y: nat, k: nat)
    ensures Bit(Or(x, y), k) == (Bit(x, k) || Bit(y, k))
    decreases k
  {
    if x == 0 && y == 0 {
      BitOfZero(k);
    } else if k > 0 {
      BitOr(x / 2, y / 2, k - 1);
      OrHalf(x, y);
    }
  }

  lemma {:induction false} BitXor(x: nat, y: nat, k: nat)
    ensures Bit(Xor(x, y), k) == (Bit(x, k) != Bit(y, k))
    decreases k
  {
    if x == 0 && y == 0 {
      BitOfZero(k);
    } else if k > 0 {
      BitXor(x / 2, y / 2, k - 1);
      XorHalf(x, y);
    }
  }

  lemma {:induction false} BitComplement(x: nat, n: nat, k: nat)
    requires x < Pow2(n) && k < n
    ensures Bit(Pow2(n) - 1 - x, k) == !Bit(x, k)
    decreases k
  {
    if k > 0 {
      BitComplement(x / 2, n - 1, k - 1);
      assert (Pow2(n) - 1 - x) / 2 == Pow2(n - 1) - 1 - x / 2;
    }
  }

  lemma {:induction false} BitNot(x: Word, k: nat)
    requires k < 64
    ensures Bit(Not(x), k) == !Bit(x, k)
  {
    Pow2Word();
    BitComplement(x, 64, k);
  }

  lemma {:induction false} BitPow2(n: nat, k: nat)
    ensures Bit(Pow2(n), k) == (k == n)
    decreases k
  {
    if n == 0 {
      if k > 0 {
        BitOfZero(k - 1);
      }
    } else if k > 0 {
      BitPow2(n - 1, k - 1);
    }
  }

  lemma {:induction false} OrBound(x: nat, y: nat, n: nat)
    requires x < Pow2(n) && y < Pow2(n)
    ensures Or(x, y) < Pow2(n) && Xor(x, y) < Pow2(n)
    decreases n
  {
    if n > 0 && !(x == 0 && y == 0) {
      OrBound(x / 2, y / 2, n - 1);
    }
  }

  lemma {:induction false} OrWord(x: Word, y: Word)
    ensures Or(x, y) < MODULUS && Xor(x, y) < MODULUS
  {
    Pow2Word();
    OrBound(x, y, 64);
  }

  // A non-zero number has a set bit below its width.
  lemma {:induction false} SomeBit(x: nat, n: nat) returns (k: nat)
    requires 0 < x < Pow2(n)
    ensures k < n && Bit(x, k)
    decreases n
  {
    if x % 2 == 1 {
      k := 0;
    } else {
      k := SomeBit(x / 2, n - 1);
      k := k + 1;
    }
  }

  // ---------- masks ----------

  // Ones at bits `k` up to (not including) `n`.
  function HighMask(n: nat, k: nat): nat
    requires k <= n
  {
    if k == 0 then Pow2(n) - 1 else 2 * HighMask(n - 1, k - 1)
  }

  lemma {:induction false} HighMaskValue(n: nat, k: nat)
    requires k <= n
    ensures HighMask(n, k) == Pow2(n) - Pow2(k)
  {
    if k > 0 {
      HighMaskValue(n - 1, k - 1);
    }
  }

  // Masking with all but the low `k` bits clears exactly those.
  lemma {:induction false} AndHighMask(x: nat, n: nat, k: nat)
    requires x < Pow2(n) && k <= n
    ensures And(x, HighMask(n, k)) == x - Low(x, k)
    decreases n
  {
    if k > 0 {
      AndHighMask(x / 2, n - 1, k - 1);
      AndHighStep(x, HighMask(n - 1, k - 1), Low(x / 2, k - 1));
    } else {
      AndAllBits(x, n);
    }
  }

  lemma {:induction false} AndAllBits(x: nat, n: nat)
    requires x < Pow2(n)
    ensures And(x, Pow2(n) - 1) == x
    decreases n
  {
    if n > 0 {
      AndAllBits(x / 2, n - 1);
      AndOdd(x, Pow2(n - 1) - 1);
    }
  }

  lemma {:induction false} AndHighStep(x: nat, mask: nat, low: nat)
    requires And(x / 2, mask) == x / 2 - low
    ensures And(x, 2 * mask) == x - (x % 2 + 2 * low)
  {
    assert And(x, 2 * mask) == 2 * And(x / 2, mask);
  }

  lemma {:induction false} AndOdd(x: nat, y: nat)
    ensures And(x, 2 * y + 1) == x % 2 + 2 * And(x / 2, y)
  {}

  // `x & !(p - 1)` for a power of two `p` that fits in a word rounds down to a multiple of `p`.
  lemma {:induction false} RoundDownMask(x: Word, k: nat)
    requires k < 64
    ensures Pow2(k) < MODULUS
    ensures And(x, Not(Pow2(k) - 1)) == x - x % Pow2(k)
  {
    Pow2Word();
    Pow2Monotone(k, 64);
    HighMaskValue(64, k);
    AndHighMask(x, 64, k);
    ShrIsDivision(x, k);
  }

  // ---------- rotation and scanning ----------

  lemma {:induction false} BitLow(low: nat, high: nat, n: nat, i: nat)
    requires i < n
    ensures Bit(low + Lift(high, n), i) == Bit(low, i)
    decreases i
  {
    if i > 0 {
      BitLow(low / 2, high, n - 1, i - 1);
      assert (low + Lift(high, n)) / 2 == low / 2 + Lift(high, n - 1);
    }
  }

  lemma {:induction false} BitHigh(low: nat, high: nat, n: nat, i: nat)
    requires low < Pow2(n) && n <= i
    ensures Bit(low + Lift(high, n), i) == Bit(high, i - n)
    decreases n
  {
    if n > 0 {
      BitHigh(low / 2, high, n - 1, i - 1);
      assert (low + Lift(high, n)) / 2 == low / 2 + Lift(high, n - 1);
    }
  }

  // Bit `i` of a rotated word is the bit `amount` places higher, cyclically.
  lemma {:induction false} BitRotateRight(x: Word, amount: nat, i: nat)
    requires i < 64
    ensures Bit(RotateRight(x, amount), i) == Bit(x, (i + amount) % 64)
  {
    var n := amount % 64;
    Pow2Word();
    Split(x, n);
    ShrBound(x, n, 64 - n);
    BitSwapped(Low(x, n), Shr(x, n), n, 64 - n, i);
    CyclicIndex(i, amount);
  }

  lemma {:induction false} BitSwapped(low: nat, high: nat, n: nat, m: nat, i: nat)
    requires low < Pow2(n) && high < Pow2(m) && i < n + m
    ensures Bit(high + Lift(low, m), i) == Bit(low + Lift(high, n), if i < m then i + n else i - m)
  {
    if i < m {
      BitLow(high, low, m, i);
      BitHigh(low, high, n, i + n);
    } else {
      BitHigh(high, low, m, i);
      BitLow(low, high, n, i - m);
    }
  }

  lemma CyclicIndex(i: nat, amount: nat)
    requires i < 64
    ensures (i + amount) % 64 == if i < 64 - amount % 64 then i + amount % 64 else i - (64 - amount % 64)
  {}

  lemma {:induction false} TrailingZerosIsLeast(x: Word, n: nat)
    requires 0 < x < Pow2(n)
    ensures TrailingZeros(x) < n && Bit(x, TrailingZeros(x))
    ensures forall j: nat :: j < TrailingZeros(x) ==> !Bit(x, j)
    decreases n
  {
    if x % 2 == 0 {
      TrailingZerosIsLeast(x / 2, n - 1);
      forall j: nat | j < TrailingZeros(x)
        ensures !Bit(x, j)
      {
        if j > 0 {
          assert !Bit(x / 2, j - 1);
        }
      }
    }
  }
}
