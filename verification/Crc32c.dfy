/** `spectrum_crc32c` of include/SpectrumTransport.hpp, and the code it computes: the CRC-32C of
    section 12.1 of RFC 3720. Bit 0 of a register or byte is its highest power of x. */
module Crc32c {

  const POLYNOMIAL: bv32 := 0x82F6_3B78
  const TOP: bv32 := 0x8000_0000

  function Xor(a: bv32, b: bv32): bv32 { a ^ b }

  function Half(c: bv32): bv32 { c >> 1 }

  function Double(c: bv32): bv32 { c << 1 }

  function Tap(c: bv32, p: bv32): bv32 { if c & 1 == 1 then p else 0 }

  /** One turn of the table's inner loop: multiplication by x modulo the polynomial. */
  function BitStep(c: bv32): bv32 { Xor(Half(c), Tap(c, POLYNOMIAL)) }

  function BitSteps(c: bv32, n: nat): bv32
    decreases n
  {
    if n == 0 then c else BitSteps(BitStep(c), n - 1)
  }

  // ---- The bit-serial code ---------------------------------------------------------------

  function One(bit: bool): bv32 { if bit then 1 else 0 }

  /** A shift register of 32 bits fed one message bit at a time. */
  function Feed(c: bv32, bits: seq<bool>): bv32
    decreases |bits|
  {
    if bits == [] then c else Feed(BitStep(Xor(c, One(bits[0]))), bits[1..])
  }

  /** The bits of a byte in the order they are sent. */
  function ByteBits(b: bv8): (r: seq<bool>)
    ensures |r| == 8
  {
    [b & 1 != 0, b & 2 != 0, b & 4 != 0, b & 8 != 0, b & 16 != 0, b & 32 != 0, b & 64 != 0, b & 128 != 0]
  }

  function BitsOf(data: seq<bv8>): (r: seq<bool>)
    ensures |r| == 8 * |data|
    decreases |data|
  {
    if data == [] then [] else ByteBits(data[0]) + BitsOf(data[1..])
  }

  function Complement(c: bv32): bv32 { !c }

  function SerialCrc(data: seq<bv8>): bv32 { Complement(Feed(0xffff_ffff, BitsOf(data))) }

  // ---- The register is linear and loses nothing ---------------------------------------------

  lemma HalfXor(a: bv32, b: bv32)
    ensures Half(Xor(a, b)) == Xor(Half(a), Half(b))
  {
  }

  lemma TapXor(a: bv32, b: bv32, p: bv32)
    ensures Tap(Xor(a, b), p) == Xor(Tap(a, p), Tap(b, p))
  {
    assert (a ^ b) & 1 == (a & 1) ^ (b & 1) && (a & 1 == 0 || a & 1 == 1) && (b & 1 == 0 || b & 1 == 1);
    assert p ^ p == 0 && p ^ 0 == p && 0 ^ p == p;
    if a & 1 == 1 {
      if b & 1 == 1 { } else { }
    } else {
      if b & 1 == 1 { } else { }
    }
  }

  lemma XorAssoc(a: bv32, b: bv32, c: bv32)
    ensures Xor(Xor(a, b), c) == Xor(a, Xor(b, c))
  {
  }

  lemma XorSwap(a: bv32, x: bv32)
    ensures Xor(a, x) == Xor(x, a)
  {
  }

  lemma XorZero(a: bv32)
    ensures Xor(a, 0) == a
  {
  }

  lemma Regroup(x: bv32, y: bv32, p: bv32, q: bv32)
    ensures Xor(Xor(x, y), Xor(p, q)) == Xor(Xor(x, p), Xor(y, q))
  {
    hide Xor;
    XorAssoc(x, y, Xor(p, q));
    XorAssoc(y, p, q);
    XorSwap(y, p);
    XorAssoc(p, y, q);
    XorAssoc(x, p, Xor(y, q));
  }

  lemma StepXor(a: bv32, b: bv32)
    ensures BitStep(Xor(a, b)) == Xor(BitStep(a), BitStep(b))
  {
    hide Tap, POLYNOMIAL, Half, Xor;
    TapXor(a, b, POLYNOMIAL);
    HalfXor(a, b);
    Regroup(Half(a), Half(b), Tap(a, POLYNOMIAL), Tap(b, POLYNOMIAL));
  }

  lemma {:induction false} StepsXor(a: bv32, b: bv32, n: nat)
    ensures BitSteps(Xor(a, b), n) == Xor(BitSteps(a, n), BitSteps(b, n))
    decreases n
  {
    hide BitStep, Xor;
    if n > 0 {
      StepXor(a, b);
      StepsXor(BitStep(a), BitStep(b), n - 1);
    }
  }

  /** The top bit after a step is the bottom bit before it, so a step can be undone. */
  function Unstep(c: bv32): bv32 {
    if c & TOP != 0 then ((c ^ POLYNOMIAL) << 1) | 1 else c << 1
  }

  lemma StepOdd(c: bv32, p: bv32)
    requires p == POLYNOMIAL && c & 1 == 1
    ensures var d := (c >> 1) ^ p; d & TOP != 0 && ((d ^ p) << 1) | 1 == c
  {
  }

  lemma StepEven(c: bv32)
    requires c & 1 != 1
    ensures var d := c >> 1; d ^ 0 == d && d & TOP == 0 && d << 1 == c
  {
  }

  lemma StepUndone(c: bv32)
    ensures Unstep(BitStep(c)) == c
  {
    if c & 1 == 1 {
      StepOdd(c, POLYNOMIAL);
      assert BitStep(c) == (c >> 1) ^ POLYNOMIAL;
    } else {
      StepEven(c);
      assert BitStep(c) == (c >> 1) ^ 0;
    }
  }

  lemma XorBack(a: bv32, x: bv32)
    ensures Xor(Xor(a, x), x) == a
  {
  }

  /** Whatever is fed afterwards, two different registers stay different. */
  lemma {:induction false} FeedInjective(a: bv32, b: bv32, bits: seq<bool>)
    requires Feed(a, bits) == Feed(b, bits)
    ensures a == b
    decreases |bits|
  {
    hide BitStep, Unstep, One, Xor;
    if bits != [] {
      var x := One(bits[0]);
      FeedInjective(BitStep(Xor(a, x)), BitStep(Xor(b, x)), bits[1..]);
      StepUndone(Xor(a, x));
      StepUndone(Xor(b, x));
      XorBack(a, x);
      XorBack(b, x);
    }
  }

  lemma {:induction false} StepsInjective(a: bv32, b: bv32, n: nat)
    requires BitSteps(a, n) == BitSteps(b, n)
    ensures a == b
    decreases n
  {
    hide BitStep, Unstep;
    if n > 0 {
      StepsInjective(BitStep(a), BitStep(b), n - 1);
      StepUndone(a);
      StepUndone(b);
    }
  }

  // ---- Up to 32 bits at once -----------------------------------------------------------------

  /** The bits as a number, the first one lowest. */
  function Word(bits: seq<bool>): bv32
    decreases |bits|
  {
    if bits == [] then 0 else Xor(One(bits[0]), Double(Word(bits[1..])))
  }

  /** `n` low ones. */
  function Ones(n: nat): bv32 { if n == 0 then 0 else Xor(1, Double(Ones(n - 1))) }

  predicate Within(w: bv32, mask: bv32) { w & !mask == 0 }

  lemma PushWithin(x: bv32, w: bv32, m: bv32)
    requires Within(w, m) && x <= 1
    ensures Within(Xor(x, Double(w)), Xor(1, Double(m)))
  {
  }

  lemma {:induction false} OnesGrow(n: nat)
    ensures Within(Ones(n), Ones(n + 1))
    decreases n
  {
    if n > 0 {
      OnesGrow(n - 1);
      PushWithin(1, Ones(n - 1), Ones(n));
    }
  }

  lemma WithinTrans(a: bv32, b: bv32, c: bv32)
    requires Within(a, b) && Within(b, c)
    ensures Within(a, c)
  {
  }

  lemma WithinSelf(a: bv32)
    ensures Within(a, a)
  {
  }

  lemma {:induction false} OnesWithin(n: nat, k: nat)
    requires n <= k
    ensures Within(Ones(n), Ones(k))
    decreases k
  {
    hide Ones, Within;
    if n == k {
      WithinSelf(Ones(n));
    } else {
      OnesWithin(n, k - 1);
      OnesGrow(k - 1);
      WithinTrans(Ones(n), Ones(k - 1), Ones(k));
    }
  }

  lemma Ones31()
    ensures Ones(31) == 0x7fff_ffff
  {
    assert Ones(8) == 0xff;
    assert Ones(16) == 0xffff;
    assert Ones(24) == 0xff_ffff;
  }

  lemma {:induction false} WordWithin(bits: seq<bool>)
    ensures Within(Word(bits), Ones(|bits|))
    decreases |bits|
  {
    hide Within, Xor, Double;
    if bits == [] {
      WithinSelf(0);
    } else {
      WordWithin(bits[1..]);
      PushWithin(One(bits[0]), Word(bits[1..]), Ones(|bits| - 1));
    }
  }

  predicate TopClear(w: bv32) { w & TOP == 0 }

  lemma ClearBelow(w: bv32)
    requires Within(w, 0x7fff_ffff)
    ensures TopClear(w)
  {
  }

  lemma WordTop(bits: seq<bool>)
    requires |bits| <= 31
    ensures TopClear(Word(bits))
  {
    hide Word, Ones, Within, TopClear;
    WordWithin(bits);
    OnesWithin(|bits|, 31);
    Ones31();
    WithinTrans(Word(bits), Ones(|bits|), Ones(31));
    ClearBelow(Word(bits));
  }

  lemma StepDouble(w: bv32)
    requires TopClear(w)
    ensures BitStep(Double(w)) == w
  {
    DoubleHalf(w);
    assert Half(Double(w)) == w;
    assert Tap(Double(w), POLYNOMIAL) == 0;
  }

  lemma DoubleHalf(w: bv32)
    requires w & TOP == 0
    ensures (w << 1) & 1 == 0 && (w << 1) >> 1 == w && w ^ 0 == w
  {
  }

  /** Feeding up to 32 bits is adding them to the register as one word and stepping. */
  lemma {:induction false} FeedWord(c: bv32, bits: seq<bool>)
    requires |bits| <= 32
    ensures Feed(c, bits) == BitSteps(Xor(c, Word(bits)), |bits|)
    decreases |bits|
  {
    hide BitStep, One, Xor, Double, TopClear;
    if bits == [] {
      XorZero(c);
    } else {
      var x, rest := One(bits[0]), bits[1..];
      FeedWord(BitStep(Xor(c, x)), rest);
      WordTop(rest);
      StepDouble(Word(rest));
      StepXor(Xor(c, x), Double(Word(rest)));
      XorAssoc(c, x, Double(Word(rest)));
    }
  }

  lemma PushInjective(x: bool, y: bool, w: bv32, v: bv32)
    requires TopClear(w) && TopClear(v) && Xor(One(x), Double(w)) == Xor(One(y), Double(v))
    ensures x == y && w == v
  {
  }

  lemma {:induction false} WordInjective(u: seq<bool>, v: seq<bool>)
    requires |u| == |v| <= 32 && Word(u) == Word(v)
    ensures u == v
    decreases |u|
  {
    hide Xor, Double, One, TopClear;
    if u != [] {
      WordTop(u[1..]);
      WordTop(v[1..]);
      PushInjective(u[0], v[0], Word(u[1..]), Word(v[1..]));
      WordInjective(u[1..], v[1..]);
      assert u == [u[0]] + u[1..] && v == [v[0]] + v[1..];
    }
  }

  // ---- Bursts ----------------------------------------------------------------------------------

  lemma {:induction false} FeedAppend(c: bv32, a: seq<bool>, b: seq<bool>)
    ensures Feed(c, a + b) == Feed(Feed(c, a), b)
    decreases |a|
  {
    hide BitStep, One, Xor;
    if a == [] {
      assert a + b == b;
    } else {
      assert (a + b)[1..] == a[1..] + b;
      FeedAppend(BitStep(Xor(c, One(a[0]))), a[1..], b);
    }
  }

  lemma XorCancel(c: bv32, u: bv32, v: bv32)
    requires Xor(c, u) == Xor(c, v)
    ensures u == v
  {
    hide Xor;
    XorSwap(c, u);
    XorSwap(c, v);
    XorBack(u, c);
    XorBack(v, c);
  }

  /** Two messages that differ only within one window of 32 bits leave different registers. */
  lemma BurstBits(c: bv32, before: seq<bool>, u: seq<bool>, v: seq<bool>, after: seq<bool>)
    requires |u| == |v| <= 32 && u != v
    ensures Feed(c, before + u + after) != Feed(c, before + v + after)
  {
    hide Feed, BitSteps, Word, Xor;
    var s := Feed(c, before);
    FeedAppend(c, before + u, after);
    FeedAppend(c, before + v, after);
    FeedAppend(c, before, u);
    FeedAppend(c, before, v);
    if Feed(c, before + u + after) == Feed(c, before + v + after) {
      FeedInjective(Feed(s, u), Feed(s, v), after);
      FeedWord(s, u);
      FeedWord(s, v);
      StepsInjective(Xor(s, Word(u)), Xor(s, Word(v)), |u|);
      XorCancel(s, Word(u), Word(v));
      WordInjective(u, v);
    }
  }

  // ---- Bytes -----------------------------------------------------------------------------------

  function Low(b: bv8): bv32 { b as bv32 }

  lemma WordOf8(x: seq<bool>)
    requires |x| == 8
    ensures Word(x) == Xor(One(x[0]), Double(Xor(One(x[1]), Double(Xor(One(x[2]), Double(Xor(One(x[3]), Double(
      Xor(One(x[4]), Double(Xor(One(x[5]), Double(Xor(One(x[6]), Double(Xor(One(x[7]), Double(0))))))))))))))))
  {
    hide Xor, Double, One;
    assert x[1..][1..] == x[2..] && x[2..][1..] == x[3..] && x[3..][1..] == x[4..] && x[4..][1..] == x[5..];
    assert x[5..][1..] == x[6..] && x[6..][1..] == x[7..] && x[7..][1..] == [];
    assert Word(x[7..]) == Xor(One(x[7]), Double(0));
    assert Word(x[6..]) == Xor(One(x[6]), Double(Word(x[7..])));
    assert Word(x[5..]) == Xor(One(x[5]), Double(Word(x[6..])));
    assert Word(x[4..]) == Xor(One(x[4]), Double(Word(x[5..])));
    assert Word(x[3..]) == Xor(One(x[3]), Double(Word(x[4..])));
    assert Word(x[2..]) == Xor(One(x[2]), Double(Word(x[3..])));
    assert Word(x[1..]) == Xor(One(x[1]), Double(Word(x[2..])));
  }

  lemma WordOfByte(b: bv8)
    ensures Word(ByteBits(b)) == Low(b)
  {
    hide Word;
    WordOf8(ByteBits(b));
  }

  /** Feeding the bits of a byte is adding the byte and taking eight steps. */
  lemma FeedByte(c: bv32, b: bv8)
    ensures Feed(c, ByteBits(b)) == BitSteps(Xor(c, Low(b)), 8)
  {
    hide Feed, BitSteps, Low, Word, ByteBits, Xor;
    FeedWord(c, ByteBits(b));
    WordOfByte(b);
  }

  predicate LowByteClear(c: bv32) { c & 0xff == 0 }

  predicate Even(c: bv32) { c & 1 == 0 }

  function Shift8(c: bv32): bv32 { c >> 8 }

  /** Eight steps of a register whose low byte is clear only shift it. */
  lemma ShiftOut(c: bv32)
    requires LowByteClear(c)
    ensures BitSteps(c, 8) == Shift8(c)
  {
    hide BitStep, BitSteps, Half, LowByteClear, Even, Shift8;
    Clears(c);
    var c1 := Half(c); var c2 := Half(c1); var c3 := Half(c2); var c4 := Half(c3);
    var c5 := Half(c4); var c6 := Half(c5); var c7 := Half(c6);
    StepOfEven(c); StepOfEven(c1); StepOfEven(c2); StepOfEven(c3);
    StepOfEven(c4); StepOfEven(c5); StepOfEven(c6); StepOfEven(c7);
    EightSteps(c);
  }

  lemma Clears(c: bv32)
    requires LowByteClear(c)
    ensures Even(c) && Even(Half(c)) && Even(Half(Half(c))) && Even(Half(Half(Half(c))))
    ensures Even(Half(Half(Half(Half(c)))))
    ensures Even(Half(Half(Half(Half(Half(c)))))) && Even(Half(Half(Half(Half(Half(Half(c)))))))
    ensures Even(Half(Half(Half(Half(Half(Half(Half(c))))))))
    ensures Half(Half(Half(Half(Half(Half(Half(Half(c)))))))) == Shift8(c)
  {
  }

  lemma StepOfEven(c: bv32)
    requires Even(c)
    ensures BitStep(c) == Half(c)
  {
    XorZero(Half(c));
  }

  lemma EightSteps(c: bv32)
    ensures BitSteps(c, 8) == BitStep(BitStep(BitStep(BitStep(BitStep(BitStep(BitStep(BitStep(c))))))))
  {
    hide BitStep;
  }

  // ---- The table and the byte loop -----------------------------------------------------------------

  /** What the table holds at index `i`. */
  function Entry(i: bv32): bv32 { BitSteps(i, 8) }

  lemma SplitLow(c: bv32)
    ensures c == Xor(c & 0xff, c & 0xffff_ff00) && LowByteClear(c & 0xffff_ff00) && Shift8(c & 0xffff_ff00) == Shift8(c)
  {
  }

  lemma ShiftLow(c: bv32, b: bv8)
    ensures Shift8(Xor(c, Low(b))) == Shift8(c)
  {
  }

  /** A table look-up and a shift are eight steps of the register. */
  lemma LookUp(c: bv32, b: bv8)
    ensures var d := Xor(c, Low(b)); Xor(Entry(LowByte(d)), Shift8(c)) == Feed(c, ByteBits(b))
  {
    hide Xor, Shift8, BitSteps, LowByteClear, Feed, Low;
    var d := Xor(c, Low(b));
    SplitLow(d);
    StepsXor(d & 0xff, d & 0xffff_ff00, 8);
    ShiftOut(d & 0xffff_ff00);
    ShiftLow(c, b);
    FeedByte(c, b);
  }

  /** Lines 25-34: every one of the 256 entries is eight turns of the bit loop. */
  method MakeTable() returns (table: array<bv32>)
    ensures table.Length == 256 && forall i :: 0 <= i < 256 ==> table[i] == Entry(i as bv32)
  {
    hide BitStep;
    table := new bv32[256];
    var i := 0;
    while i < 256
      invariant 0 <= i <= 256 && forall j :: 0 <= j < i ==> table[j] == Entry(j as bv32)
    {
      var crc := i as bv32;
      var bit := 0;
      while bit < 8
        invariant 0 <= bit <= 8 && BitSteps(crc, 8 - bit) == Entry(i as bv32)
      {
        crc := Turn(crc);
        bit := bit + 1;
      }
      table[i] := crc;
      i := i + 1;
    }
  }

  /** `(crc >> 1) ^ ((crc & 1U) ? 0x82F63B78U : 0U)` */
  function Turn(crc: bv32): (r: bv32)
    ensures r == BitStep(crc)
  {
    (crc >> 1) ^ (if crc & 1 != 0 then 0x82F6_3B78 else 0)
  }

  lemma {:induction false} BitsOfPrefix(data: seq<bv8>, k: nat)
    requires k < |data|
    ensures BitsOf(data[..k + 1]) == BitsOf(data[..k]) + ByteBits(data[k])
    decreases k
  {
    hide ByteBits;
    if k == 0 {
      assert data[..1][1..] == [] && data[..1][0] == data[0];
      assert BitsOf(data[..1]) == ByteBits(data[0]) + [];
    } else {
      assert data[..k + 1][1..] == data[1..][..k] && data[..k][1..] == data[1..][..k - 1];
      BitsOfPrefix(data[1..], k - 1);
    }
  }

  function LowByte(x: bv32): (r: bv32)
    ensures r < 256
  {
    x & 0xff
  }

  lemma IndexOf(x: bv32)
    requires x < 256
    ensures 0 <= x as int < 256
  {
  }

  lemma IndexBack(x: bv32)
    ensures (x as int) as bv32 == x
  {
  }

  /** The byte loop computes the bit-serial code, for messages of every length. */
  method SpectrumCrc32c(data: seq<bv8>) returns (r: bv32)
    ensures r == SerialCrc(data)
  {
    hide Feed, BitSteps, BitsOf, ByteBits, Xor, Shift8, LowByte, Entry, Low, Complement;
    var table := MakeTable();
    var crc: bv32 := 0xffff_ffff;
    FeedNothing(crc);
    var i := 0;
    while i < |data|
      invariant 0 <= i <= |data| && crc == Feed(0xffff_ffff, BitsOf(data[..i]))
      invariant table.Length == 256 && forall j :: 0 <= j < 256 ==> table[j] == Entry(j as bv32)
    {
      LookUp(crc, data[i]);
      var index := LowByte(Xor(crc, Low(data[i])));
      IndexOf(index);
      IndexBack(index);
      BitsOfPrefix(data, i);
      FeedAppend(0xffff_ffff, BitsOf(data[..i]), ByteBits(data[i]));
      crc := Xor(table[index as int], Shift8(crc));
      i := i + 1;
    }
    assert data[..i] == data;
    r := Complement(crc);
  }

  lemma FeedNothing(c: bv32)
    ensures BitsOf([]) == [] && Feed(c, []) == c
  {
  }

  // ---- What is detected ------------------------------------------------------------------------------

  lemma {:induction false} BitsOfAppend(a: seq<bv8>, b: seq<bv8>)
    ensures BitsOf(a + b) == BitsOf(a) + BitsOf(b)
    decreases |a|
  {
    hide ByteBits;
    if a == [] {
      assert a + b == b;
    } else {
      assert (a + b)[1..] == a[1..] + b;
      BitsOfAppend(a[1..], b);
    }
  }

  lemma ByteInjective(a: bv8, b: bv8)
    requires ByteBits(a) == ByteBits(b)
    ensures a == b
  {
    hide Word, ByteBits;
    WordOfByte(a);
    WordOfByte(b);
  }

  lemma {:induction false} BitsInjective(u: seq<bv8>, v: seq<bv8>)
    requires |u| == |v| && BitsOf(u) == BitsOf(v)
    ensures u == v
    decreases |u|
  {
    hide ByteBits;
    if u != [] {
      assert BitsOf(u)[..8] == ByteBits(u[0]) && BitsOf(v)[..8] == ByteBits(v[0]);
      assert BitsOf(u)[8..] == BitsOf(u[1..]) && BitsOf(v)[8..] == BitsOf(v[1..]);
      ByteInjective(u[0], v[0]);
      BitsInjective(u[1..], v[1..]);
      assert u == [u[0]] + u[1..] && v == [v[0]] + v[1..];
    }
  }

  lemma NotInjective(a: bv32, b: bv32)
    requires a != b
    ensures !a != !b
  {
  }

  /** Bodies of equal length that differ only within four consecutive bytes have different codes. */
  lemma BurstDetected(before: seq<bv8>, u: seq<bv8>, v: seq<bv8>, after: seq<bv8>)
    requires |u| == |v| <= 4 && u != v
    ensures SerialCrc(before + u + after) != SerialCrc(before + v + after)
  {
    hide Feed, BitsOf;
    BitsOfAppend(before + u, after);
    BitsOfAppend(before, u);
    BitsOfAppend(before + v, after);
    BitsOfAppend(before, v);
    if BitsOf(u) == BitsOf(v) { BitsInjective(u, v); }
    BurstBits(0xffff_ffff, BitsOf(before), BitsOf(u), BitsOf(v), BitsOf(after));
    NotInjective(Feed(0xffff_ffff, BitsOf(before + u + after)), Feed(0xffff_ffff, BitsOf(before + v + after)));
  }

  /** The same at bit level, at any bit offset: every burst of up to 32 bits is detected. */
  lemma BitBurstDetected(a: seq<bv8>, b: seq<bv8>, start: nat, length: nat)
    requires |a| == |b| && a != b && length <= 32 && start + length <= 8 * |a|
    requires BitsOf(a)[..start] == BitsOf(b)[..start] && BitsOf(a)[start + length..] == BitsOf(b)[start + length..]
    ensures SerialCrc(a) != SerialCrc(b)
  {
    hide Feed, BitsOf;
    var p, q := BitsOf(a), BitsOf(b);
    var u, v := p[start..start + length], q[start..start + length];
    assert p == p[..start] + u + p[start + length..] && q == p[..start] + v + p[start + length..];
    if u == v { BitsInjective(a, b); }
    BurstBits(0xffff_ffff, p[..start], u, v, p[start + length..]);
    NotInjective(Feed(0xffff_ffff, p), Feed(0xffff_ffff, q));
  }

  // ---- The definition by polynomial division -----------------------------------------------------------

  /** The register as coefficients, highest power first. */
  function Coefficients(c: bv32, n: nat): (r: seq<bool>)
    ensures |r| == n
    decreases n
  {
    if n == 0 then [] else [c & 1 != 0] + Coefficients(Half(c), n - 1)
  }

  function Zeros(n: nat): (r: seq<bool>)
    ensures |r| == n && forall i :: 0 <= i < n ==> !r[i]
  {
    seq(n, i => false)
  }

  /** Subtracts the polynomial `g` of lower degree, aligned with the highest powers of `m`. */
  function Subtract(m: seq<bool>, g: seq<bool>): (r: seq<bool>)
    requires |g| <= |m|
    ensures |r| == |m| && forall i :: 0 <= i < |m| ==> r[i] == if i < |g| then m[i] != g[i] else m[i]
  {
    seq(|m|, i requires 0 <= i < |m| => if i < |g| then m[i] != g[i] else m[i])
  }

  /** Long division over GF(2) by x^32 + g, where `g` holds the 32 lower coefficients. */
  function Remainder(m: seq<bool>, g: seq<bool>): (r: seq<bool>)
    requires |g| == 32 <= |m|
    ensures |r| == 32
    decreases |m|
  {
    if |m| == 32 then m else Remainder(if m[0] then Subtract(m[1..], g) else m[1..], g)
  }

  /** The powers of x below 32 in the generator polynomial of CRC-32C (section 12.1 of RFC 3720,
      there written 0x11EDC6F41). */
  predicate IsTerm(power: int) { power in {28, 27, 26, 25, 23, 22, 20, 19, 18, 14, 13, 11, 10, 9, 8, 6, 0} }

  /** The 32 lower coefficients of the generator, highest power first. */
  function Generator(): (r: seq<bool>)
    ensures |r| == 32
  {
    seq(32, i => IsTerm(31 - i))
  }

  lemma FirstCoefficient(c: bv32, n: nat)
    requires n >= 1
    ensures Coefficients(c, n) == [c & 1 != 0] + Coefficients(Half(c), n - 1)
  {
  }

  lemma NibbleBits(c: bv32)
    ensures (Half(c) & 1 != 0) == (c & 2 != 0) && (Half(Half(c)) & 1 != 0) == (c & 4 != 0)
    ensures (Half(Half(Half(c))) & 1 != 0) == (c & 8 != 0) && Half(Half(Half(Half(c)))) == c >> 4
  {
  }

  /** Four coefficients at a time. */
  lemma Nibble(c: bv32, n: nat)
    requires n >= 4
    ensures Coefficients(c, n) ==
      [c & 1 != 0, c & 2 != 0, c & 4 != 0, c & 8 != 0] + Coefficients(c >> 4, n - 4)
  {
    hide Coefficients, Half;
    NibbleBits(c);
    FirstCoefficient(c, n);
    FirstCoefficient(Half(c), n - 1);
    FirstCoefficient(Half(Half(c)), n - 2);
    FirstCoefficient(Half(Half(Half(c))), n - 3);
  }

  /** The constant of the table is the generator, its highest power in bit 0. */
  lemma PolynomialIsGenerator()
    ensures Coefficients(POLYNOMIAL, 32) == Generator()
  {
    hide Coefficients;
    Nibble(0x82F6_3B78, 32);
    Nibble(0x082F_63B7, 28);
    Nibble(0x0082_F63B, 24);
    Nibble(0x0008_2F63, 20);
    Nibble(0x0000_82F6, 16);
    Nibble(0x0000_082F, 12);
    Nibble(0x0000_0082, 8);
    Nibble(0x0000_0008, 4);
    NoCoefficients();
  }

  lemma NoCoefficients()
    ensures Coefficients(0, 0) == []
  {
  }

  lemma {:induction false} CoefficientsXor(a: bv32, b: bv32, n: nat)
    ensures var x := Coefficients(Xor(a, b), n);
      forall i :: 0 <= i < n ==> x[i] == (Coefficients(a, n)[i] != Coefficients(b, n)[i])
    decreases n
  {
    hide Xor, Half;
    if n > 0 {
      HalfXor(a, b);
      LowBitXor(a, b);
      CoefficientsXor(Half(a), Half(b), n - 1);
    }
  }

  lemma LowBitXor(a: bv32, b: bv32)
    ensures (Xor(a, b) & 1 != 0) == ((a & 1 != 0) != (b & 1 != 0))
  {
  }

  lemma {:induction false} CoefficientsZero(n: nat)
    ensures forall i :: 0 <= i < n ==> !Coefficients(0, n)[i]
    decreases n
  {
    if n > 0 { CoefficientsZero(n - 1); }
  }

  lemma {:induction false} CoefficientsPrefix(c: bv32, n: nat, k: nat)
    requires k <= n
    ensures Coefficients(c, n)[..k] == Coefficients(c, k)
    decreases k
  {
    if k > 0 { CoefficientsPrefix(Half(c), n - 1, k - 1); }
  }

  lemma HalfWithin(c: bv32, m: bv32)
    requires Within(c, Xor(1, Double(m))) && TopClear(m)
    ensures Within(Half(c), m)
  {
  }

  lemma NothingWithin(c: bv32)
    requires Within(c, 0)
    ensures c & 1 == 0
  {
  }

  lemma OnesClear(n: nat)
    requires n <= 31
    ensures TopClear(Ones(n))
  {
    hide Ones, Within, TopClear;
    OnesWithin(n, 31);
    Ones31();
    ClearBelow(Ones(n));
  }

  lemma {:induction false} TopCoefficient(c: bv32, n: nat)
    requires n <= 31 && Within(c, Ones(n))
    ensures !Coefficients(c, n + 1)[n]
    decreases n
  {
    hide Within, TopClear, Half, Xor, Double;
    if n == 0 {
      NothingWithin(c);
    } else {
      OnesClear(n - 1);
      HalfWithin(c, Ones(n - 1));
      TopCoefficient(Half(c), n - 1);
    }
  }

  lemma HalfIsSmall(c: bv32)
    ensures Within(Half(c), 0x7fff_ffff)
  {
  }

  lemma CoefficientsTail(c: bv32, n: nat)
    requires n > 0
    ensures Coefficients(c, n)[1..] == Coefficients(Half(c), n - 1)
  {
  }

  lemma HalfTop(c: bv32)
    ensures !Coefficients(Half(c), 32)[31]
  {
    hide Half, Within, Ones, Coefficients;
    Ones31();
    HalfIsSmall(c);
    TopCoefficient(Half(c), 31);
  }

  /** Halving the register multiplies by x. */
  lemma HalfCoefficients(c: bv32)
    ensures forall i :: 0 <= i < 32 ==> Coefficients(Half(c), 32)[i] == (i < 31 && Coefficients(c, 32)[i + 1])
  {
    hide Half, Within, Ones, Coefficients;
    CoefficientsPrefix(Half(c), 32, 31);
    CoefficientsTail(c, 32);
    HalfTop(c);
    forall i | 0 <= i < 31 ensures Coefficients(Half(c), 32)[i] == Coefficients(c, 32)[i + 1] {
      assert Coefficients(Half(c), 32)[i] == Coefficients(Half(c), 32)[..31][i];
    }
  }

  lemma TapCoefficients(c: bv32)
    ensures forall i :: 0 <= i < 32 ==>
      Coefficients(Tap(c, POLYNOMIAL), 32)[i] == (Coefficients(c, 32)[0] && Generator()[i])
  {
    hide Generator;
    PolynomialIsGenerator();
    CoefficientsZero(32);
    LowBit(c);
  }

  lemma LowBit(c: bv32)
    ensures c & 1 == 1 <==> c & 1 != 0
  {
  }

  lemma StepCoefficients(c: bv32)
    ensures var k := Coefficients(c, 32);
      forall i {:trigger Coefficients(BitStep(c), 32)[i]} :: 0 <= i < 32 ==>
        Coefficients(BitStep(c), 32)[i] == ((i < 31 && k[i + 1]) != (k[0] && Generator()[i]))
  {
    hide Half, Tap, Coefficients, Xor, Generator;
    CoefficientsXor(Half(c), Tap(c, POLYNOMIAL), 32);
    HalfCoefficients(c);
    TapCoefficients(c);
  }

  lemma OneCoefficients(c: bv32, x: bool)
    ensures forall i :: 0 <= i < 32 ==>
      Coefficients(Xor(c, One(x)), 32)[i] == (if i == 0 then Coefficients(c, 32)[0] != x else Coefficients(c, 32)[i])
  {
    hide Xor;
    CoefficientsXor(c, One(x), 32);
    CoefficientsZero(31);
    HalfOfOne(x);
    assert forall i :: 0 <= i < 32 ==> Coefficients(One(x), 32)[i] == (i == 0 && x);
  }

  lemma HalfOfOne(x: bool)
    ensures Half(One(x)) == 0 && (One(x) & 1 != 0) == x
  {
  }

  /** One step of the register is one step of the long division. */
  lemma DivisionStep(c: bv32, m: seq<bool>)
    requires m != []
    ensures var l := Subtract(m + Zeros(32), Coefficients(c, 32));
      (if l[0] then Subtract(l[1..], Generator()) else l[1..]) ==
        Subtract(m[1..] + Zeros(32), Coefficients(BitStep(Xor(c, One(m[0]))), 32))
  {
    hide Coefficients, BitStep, Xor, One, Generator, Subtract;
    var c1 := Xor(c, One(m[0]));
    OneCoefficients(c, m[0]);
    StepCoefficients(c1);
    var k, k1, g := Coefficients(c, 32), Coefficients(c1, 32), Generator();
    var all := m + Zeros(32);
    var l, r := Subtract(all, k), m[1..] + Zeros(32);
    assert r == all[1..] && all[0] == m[0];
    DivisionCase(all, k, k1, g, Coefficients(BitStep(c1), 32));
  }

  /** The same on coefficients alone; `k2` is what a step makes of `k1`. */
  lemma DivisionCase(all: seq<bool>, k: seq<bool>, k1: seq<bool>, g: seq<bool>, k2: seq<bool>)
    requires |all| >= 33 && |k| == |k1| == |g| == |k2| == 32
    requires forall i :: 0 <= i < 32 ==> k1[i] == (if i == 0 then k[0] != all[0] else k[i])
    requires forall i :: 0 <= i < 32 ==> k2[i] == ((i < 31 && k1[i + 1]) != (k1[0] && g[i]))
    ensures var l := Subtract(all, k); (if l[0] then Subtract(l[1..], g) else l[1..]) == Subtract(all[1..], k2)
  {
    hide Subtract;
    var l := Subtract(all, k);
    assert forall i :: 0 <= i < |l| - 1 ==> l[1..][i] == l[i + 1];
  }

  /** Feeding a message to the register is dividing it, its first 32 bits added to the register
      and 32 zeros appended, by the generator polynomial. */
  lemma {:induction false} Division(c: bv32, m: seq<bool>)
    ensures Coefficients(Feed(c, m), 32) == Remainder(Subtract(m + Zeros(32), Coefficients(c, 32)), Generator())
    decreases |m|
  {
    hide Coefficients, BitStep, Xor, One, Generator;
    if m == [] {
      assert Subtract(m + Zeros(32), Coefficients(c, 32)) == Coefficients(c, 32);
    } else {
      DivisionStep(c, m);
      Division(BitStep(Xor(c, One(m[0]))), m[1..]);
    }
  }

  function AllSet(): (r: seq<bool>)
    ensures |r| == 32 && forall i :: 0 <= i < 32 ==> r[i]
  {
    seq(32, i => true)
  }

  lemma {:induction false} FullRegister()
    ensures Coefficients(0xffff_ffff, 32) == AllSet()
  {
    hide Coefficients;
    Nibble(0xffff_ffff, 32);
    Nibble(0x0fff_ffff, 28);
    Nibble(0x00ff_ffff, 24);
    Nibble(0x000f_ffff, 20);
    Nibble(0x0000_ffff, 16);
    Nibble(0x0000_0fff, 12);
    Nibble(0x0000_00ff, 8);
    Nibble(0x0000_000f, 4);
    NoCoefficients();
  }

  /** The code of a message is the complement of the remainder of the message, its first 32 bits
      complemented, times x^32, divided by x^32 plus the terms of the generator. */
  lemma CrcIsRemainder(data: seq<bv8>)
    ensures Coefficients(!SerialCrc(data), 32) ==
              Remainder(Subtract(BitsOf(data) + Zeros(32), AllSet()), seq(32, i => IsTerm(31 - i)))
  {
    hide Coefficients, Feed, BitsOf, Subtract, Remainder, IsTerm;
    FullRegister();
    assert seq(32, i => IsTerm(31 - i)) == Generator();
    NotNot(Feed(0xffff_ffff, BitsOf(data)));
    Division(0xffff_ffff, BitsOf(data));
  }

  lemma NotNot(c: bv32)
    ensures !(!c) == c
  {
  }
}
