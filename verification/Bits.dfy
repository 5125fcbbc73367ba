/** Bitwise `&`, `|` and `>>` on unsigned integers, powers of two, and the rounding
    used by the two lock-free containers to size their buffers. */
module Bits {

  const WORD := 0x1_0000_0000_0000_0000
  const HALF_WORD := 0x8000_0000_0000_0000

  function Pow2(n: nat): (r: nat)
    ensures r >= 1
  {
    if n == 0 then 1 else 2 * Pow2(n - 1)
  }

  predicate IsPow2(x: nat) {
    x == 1 || (x > 1 && x % 2 == 0 && IsPow2(x / 2))
  }

  function BitAnd(x: nat, y: nat): nat
    decreases x
  {
    if x == 0 then 0 else 2 * BitAnd(x / 2, y / 2) + (if x % 2 == 1 && y % 2 == 1 then 1 else 0)
  }

  function BitOr(x: nat, y: nat): nat
    decreases x + y
  {
    if x == 0 && y == 0 then 0
    else 2 * BitOr(x / 2, y / 2) + (if x % 2 == 1 || y % 2 == 1 then 1 else 0)
  }

  function BitXor(x: nat, y: nat): nat
    decreases x + y
  {
    if x == 0 && y == 0 then 0 else 2 * BitXor(x / 2, y / 2) + (if x % 2 == y % 2 then 0 else 1)
  }

  function Shr(x: nat, k: nat): nat
    decreases k
  {
    if k == 0 then x else Shr(x / 2, k - 1)
  }

  /** Index of the slot after `i` in a ring of `size` slots, for `i <= 2 * size - 1`. */
  function Wrap(i: int, size: int): int { if i >= size then i - size else i }

  /** How many slots after slot `front` of a ring of `size` slots slot `j` lies. */
  function Offset(j: int, front: int, size: int): int { if j >= front then j - front else j + size - front }

  /** Masking with a power of two minus one is the remainder. */
  lemma {:induction false} AndMaskIsMod(x: nat, mask: nat)
    requires IsPow2(mask + 1)
    ensures BitAnd(x, mask) == x % (mask + 1)
    decreases x
  {
    if x == 0 {
    } else if mask == 0 {
      AndZero(x);
    } else {
      var h := mask / 2;
      assert mask == 2 * h + 1 && IsPow2(h + 1);
      AndMaskIsMod(x / 2, h);
      ModDouble(x, h + 1);
    }
  }

  lemma {:induction false} AndZero(x: nat)
    ensures BitAnd(x, 0) == 0
    decreases x
  {
    if x != 0 { AndZero(x / 2); }
  }

  lemma ModDouble(x: nat, m: nat)
    requires m >= 1
    ensures x % (2 * m) == 2 * ((x / 2) % m) + x % 2
  {
    var q, r := (x / 2) / m, (x / 2) % m;
    assert x / 2 == q * m + r;
    assert x == 2 * (q * m + r) + x % 2;
    assert 2 * (q * m) == q * (2 * m);
    ModUnique(x, 2 * m, q, 2 * r + x % 2);
  }

  lemma ModUnique(x: int, m: int, q: int, r: int)
    requires m > 0 && 0 <= r < m && x == q * m + r
    ensures x % m == r && x / m == q
  {
    var q', r' := x / m, x % m;
    DivModUniqueAux(m, q, r, q', r');
  }

  lemma DivModUniqueAux(m: int, q: int, r: int, q': int, r': int)
    requires m > 0 && 0 <= r < m && 0 <= r' < m && q' * m + r' == q * m + r
    ensures q == q' && r == r'
  {
    var d := q' - q;
    assert d * m == r - r';
    if d >= 1 {
      MulGe(d, m);
    } else if d <= -1 {
      MulGe(-d, m);
    }
  }

  lemma MulGe(d: int, m: int)
    requires d >= 1 && m > 0
    ensures d * m >= m
  {
    assert (d - 1) * m >= 0;
  }

  lemma DivPositive(n: int, m: int)
    requires n >= m > 0
    ensures n / m >= 1 && n == (n / m) * m + n % m
  {
    MulNonPositive(n / m, m);
  }

  lemma MulNonPositive(q: int, m: int)
    requires m > 0
    ensures q <= 0 ==> q * m <= 0
  {
  }

  /** Incrementing an index and masking it moves to the next ring slot. */
  lemma AndMaskWraps(i: nat, mask: nat)
    requires IsPow2(mask + 1) && i <= mask
    ensures BitAnd(i + 1, mask) == Wrap(i + 1, mask + 1)
  {
    AndMaskIsMod(i + 1, mask);
    if i == mask {
      ModUnique(i + 1, mask + 1, 1, 0);
    } else {
      ModUnique(i + 1, mask + 1, 0, i + 1);
    }
  }

  lemma {:induction false} Pow2IsPow2(n: nat)
    ensures IsPow2(Pow2(n))
  {
    if n > 0 { Pow2IsPow2(n - 1); }
  }

  lemma {:induction false} Pow2Add(a: nat, b: nat)
    ensures Pow2(a + b) == Pow2(a) * Pow2(b)
  {
    if a > 0 {
      Pow2Add(a - 1, b);
      assert Pow2(a + b) == 2 * Pow2(a - 1 + b);
      assert 2 * (Pow2(a - 1) * Pow2(b)) == (2 * Pow2(a - 1)) * Pow2(b);
    }
  }

  lemma {:induction false} Pow2Mono(a: nat, b: nat)
    requires a < b
    ensures Pow2(a) < Pow2(b)
    decreases b
  {
    if a < b - 1 { Pow2Mono(a, b - 1); }
  }

  /** Every power of two has an exponent. */
  lemma {:induction false} Pow2Exponent(x: nat) returns (n: nat)
    requires IsPow2(x)
    ensures x == Pow2(n)
  {
    if x == 1 {
      n := 0;
    } else {
      var m := Pow2Exponent(x / 2);
      n := m + 1;
    }
  }

  lemma {:induction false} ShrShr(x: nat, a: nat, b: nat)
    ensures Shr(Shr(x, a), b) == Shr(x, a + b)
    decreases a
  {
    if a > 0 { ShrShr(x / 2, a - 1, b); }
  }

  lemma {:induction false} ShrOr(x: nat, y: nat, k: nat)
    ensures Shr(BitOr(x, y), k) == BitOr(Shr(x, k), Shr(y, k))
    decreases k
  {
    if k > 0 {
      assert BitOr(x, y) / 2 == BitOr(x / 2, y / 2);
      ShrOr(x / 2, y / 2, k - 1);
    }
  }

  /** Or-ing `r` low ones below `s` leading ones gives `r + s` ones. */
  lemma {:induction false} OrLowOnes(x: nat, z: nat, r: nat, s: nat)
    requires Shr(x, r) == Pow2(s) - 1 && z == Pow2(r) - 1
    ensures BitOr(x, z) == Pow2(r + s) - 1
    decreases r
  {
    if r == 0 {
      OrZero(x);
    } else {
      OrLowOnes(x / 2, z / 2, r - 1, s);
    }
  }

  lemma {:induction false} OrZero(x: nat)
    ensures BitOr(x, 0) == x
    decreases x
  {
    if x != 0 { OrZero(x / 2); }
  }

  // ---- Rounding up to a power of two --------------------------------------

  /** The least power of two that is not below `x`. */
  function LeastPow2(x: nat): (r: nat)
    ensures r >= 1
    decreases x
  {
    if x <= 1 then 1 else 2 * LeastPow2((x + 1) / 2)
  }

  lemma {:induction false} LeastPow2Above(x: nat)
    ensures IsPow2(LeastPow2(x)) && x <= LeastPow2(x)
    decreases x
  {
    if x > 1 { LeastPow2Above((x + 1) / 2); }
  }

  lemma {:induction false} LeastPow2IsLeast(x: nat, p: nat)
    requires IsPow2(p) && x <= p
    ensures LeastPow2(x) <= p
    decreases x
  {
    if x > 1 { LeastPow2IsLeast((x + 1) / 2, p / 2); }
  }

  /** What the rounding code computes on a 64-bit word: the decrement of 0 and the
      increment of the all-ones word wrap, so out-of-range arguments give 0. */
  function RoundedUp(x: nat): nat {
    if 1 <= x <= HALF_WORD then LeastPow2(x) else 0
  }

  /** The `s` most significant bits of the `n`-bit number `y` are all ones. */
  ghost predicate TopOnes(y: nat, n: nat, s: nat) {
    1 <= s <= n && y < Pow2(n) && Shr(y, n - s) == Pow2(s) - 1
  }

  lemma {:induction false} ShrSmall(y: nat, n: nat)
    requires y < Pow2(n)
    ensures Shr(y, n) == 0
    decreases n
  {
    if n > 0 { ShrSmall(y / 2, n - 1); }
  }

  lemma {:induction false} ShrOnes(x: nat, n: nat, k: nat)
    requires k <= n && x == Pow2(n) - 1
    ensures Shr(x, k) == Pow2(n - k) - 1
    decreases k
  {
    if k > 0 { ShrOnes(x / 2, n - 1, k - 1); }
  }

  lemma AllOnes(n: nat)
    ensures TopOnes(Pow2(n) - 1, n, n) || n == 0
  {
    assert Pow2(0) == 1;
    if n > 0 { assert Shr(Pow2(n) - 1, 0) == Pow2(n) - 1; }
  }

  /** One line of the rounding code: or-ing in the word shifted by `s` doubles the
      run of leading ones. */
  lemma SmearDoubles(y: nat, n: nat, s: nat)
    requires TopOnes(y, n, s)
    ensures TopOnes(BitOr(y, Shr(y, s)), n, if 2 * s <= n then 2 * s else n)
  {
    var z := Shr(y, s);
    var o := BitOr(y, z);
    if 2 * s <= n {
      var e := n - 2 * s;
      SmearHigh(y, n, s);
      ShrLe(y, s);
      OrBounded(y, z, n);
      assert Pow2(2 * s) >= 1;
    } else {
      SmearAll(y, z, n, s);
      AllOnes(n);
    }
  }

  lemma SmearHigh(y: nat, n: nat, s: nat)
    requires TopOnes(y, n, s) && 2 * s <= n
    ensures Shr(BitOr(y, Shr(y, s)), n - 2 * s) == Pow2(2 * s) - 1
  {
    var e := n - 2 * s;
    ShrOr(y, Shr(y, s), e);
    ShrShr(y, s, e);
    ShrShr(y, e, s);
    OrLowOnes(Shr(y, e), Shr(y, n - s), s, s);
  }

  lemma SmearAll(y: nat, z: nat, n: nat, s: nat)
    requires TopOnes(y, n, s) && 2 * s > n && z == Shr(y, s)
    ensures BitOr(y, z) == Pow2(n) - 1
  {
    assert z == Pow2(n - s) - 1 by { ShrLow(y, Shr(y, n - s), n, s); }
    OrLowOnes(y, z, n - s, s);
  }

  lemma ShrLow(y: nat, t: nat, n: nat, s: nat)
    requires s <= n < 2 * s && t == Shr(y, n - s) == Pow2(s) - 1
    ensures Shr(y, s) == Pow2(n - s) - 1
  {
    ShrShr(y, n - s, 2 * s - n);
    ShrOnes(t, s, 2 * s - n);
  }

  lemma {:induction false} ShrLe(y: nat, k: nat)
    ensures Shr(y, k) <= y
    decreases k
  {
    if k > 0 { ShrLe(y / 2, k - 1); }
  }

  lemma {:induction false} OrBounded(x: nat, y: nat, n: nat)
    requires x < Pow2(n) && y < Pow2(n)
    ensures BitOr(x, y) < Pow2(n)
    decreases n
  {
    if n > 0 && !(x == 0 && y == 0) {
      OrBounded(x / 2, y / 2, n - 1);
    }
  }

  /** The bit length of a positive number. */
  lemma {:induction false} BitLength(y: nat) returns (n: nat)
    requires y > 0
    ensures n > 0 && Pow2(n - 1) <= y < Pow2(n)
    decreases y
  {
    if y == 1 {
      n := 1;
      assert Pow2(1) == 2;
    } else {
      var m := BitLength(y / 2);
      n := m + 1;
    }
  }

  lemma {:induction false} TopOneBit(y: nat, n: nat)
    requires n > 0 && Pow2(n - 1) <= y < Pow2(n)
    ensures TopOnes(y, n, 1)
  {
    assert Pow2(1) == 2;
    if n > 1 {
      TopOneBit(y / 2, n - 1);
    }
  }

  lemma LeastPow2Between(y: nat, n: nat)
    requires n > 0 && Pow2(n - 1) <= y < Pow2(n)
    ensures LeastPow2(y + 1) == Pow2(n)
    decreases n
  {
    Pow2IsPow2(n);
    LeastPow2Above(y + 1);
    LeastPow2IsLeast(y + 1, Pow2(n));
    var m := Pow2Exponent(LeastPow2(y + 1));
    if m < n {
      if m < n - 1 { Pow2Mono(m, n - 1); }
    } else if m > n {
      Pow2Mono(n, m);
    }
  }

  /** `y` is the `n`-bit number `x` with its leading one copied over the next `s` bits. */
  ghost predicate Smeared(x: nat, n: nat, y: nat, s: nat) {
    if x == 0 then y == 0
    else n > 0 && Pow2(n - 1) <= x < Pow2(n) && TopOnes(y, n, if s <= n then s else n)
  }

  /** `x |= x >> s`, one line of the rounding code. */
  method OrShifted(x: nat, s: nat, ghost start: nat, ghost n: nat) returns (r: nat)
    requires s >= 1 && Smeared(start, n, x, s)
    ensures Smeared(start, n, r, 2 * s)
  {
    r := BitOr(x, Shr(x, s));
    if start == 0 {
      ShrSmall(0, s);
    } else if s <= n {
      SmearDoubles(x, n, s);
    } else {
      Pow2Mono(n, s);
      ShrSmall(x, s);
      OrZero(x);
    }
  }

  /** The bit-smearing round-up used by both containers; every line works on a 64-bit word. */
  method CeilToPow2(arg: nat) returns (x: nat)
    requires arg < WORD
    ensures x == RoundedUp(arg)
  {
    x := Decrement(arg);
    ghost var y := x;
    ghost var n := StartSmear(y);
    x := OrShifted(x, 1, y, n);
    x := OrShifted(x, 2, y, n);
    x := OrShifted(x, 4, y, n);
    var i := 1;
    while i < 8
      invariant i == 1 || i == 2 || i == 4 || i == 8
      invariant Smeared(y, n, x, 8 * i)
      decreases 8 - i
    {
      x := OrShifted(x, 8 * i, y, n);
      i := i * 2;
    }
    EndSmear(arg, y, n, x, 8 * i);
    x := (x + 1) % WORD;
  }

  function Decrement(x: nat): nat { (x + WORD - 1) % WORD }

  lemma StartSmear(y: nat) returns (n: nat)
    ensures Smeared(y, n, y, 1)
  {
    n := 1;
    if y > 0 {
      n := BitLength(y);
      TopOneBit(y, n);
    }
  }

  lemma Pow2Word()
    ensures Pow2(63) == HALF_WORD && Pow2(64) == WORD
  {
    assert Pow2(8) == 0x100;
    Pow2Add(8, 8); Pow2Add(16, 16); Pow2Add(32, 32);
    assert Pow2(64) == 2 * Pow2(63);
  }

  lemma EndSmear(arg: nat, y: nat, n: nat, x: nat, s: nat)
    requires arg < WORD && y == Decrement(arg) && Smeared(y, n, x, s) && s == 64
    ensures (x + 1) % WORD == RoundedUp(arg)
  {
    if y == 0 {
      assert arg == 1;
    } else {
      EndSmearAt(arg, y, n, x);
    }
  }

  lemma EndSmearAt(arg: nat, y: nat, n: nat, x: nat)
    requires arg < WORD && 0 < y == Decrement(arg)
    requires n > 0 && Pow2(n - 1) <= y < Pow2(n) && TopOnes(x, n, if 64 <= n then 64 else n)
    ensures (x + 1) % WORD == RoundedUp(arg)
  {
    hide Pow2, LeastPow2, Shr;
    if n > 64 { NotBelow(y, n); }
    AllTop(x, n);
    Pow2Word();
    if n <= 63 {
      if n < 63 { Pow2Mono(n, 63); }
      LeastPow2Between(y, n);
      assert arg == y + 1;
    } else {
      assert n == 64 && x + 1 == WORD;
      assert arg == 0 || arg > HALF_WORD;
    }
  }

  lemma AllTop(x: nat, n: nat)
    requires TopOnes(x, n, n)
    ensures x + 1 == Pow2(n)
  {
    assert Shr(x, 0) == x;
  }

  lemma NotBelow(y: nat, n: nat)
    requires n > 64 && Pow2(n - 1) <= y
    ensures y >= WORD
  {
    Pow2Word();
    if n > 65 { Pow2Mono(64, n - 1); }
  }
}
