/**
 The bitwise CRC-32 of section 4.4.7 of PKWARE APPNOTE.TXT, and the errors it always detects.
 The 32-bit register is a sequence of bits, least significant first.
 */
module Crc32 {
  import opened Powers

  newtype byte = x: int | 0 <= x < 256

  type Register = r: seq<bool> | |r| == 32
    witness [false, false, false, false, false, false, false, false,
             false, false, false, false, false, false, false, false,
             false, false, false, false, false, false, false, false,
             false, false, false, false, false, false, false, false]

  /** The reversed polynomial of the checksum, 0xedb88320. */
  const POLYNOMIAL: Register :=
    [false, false, false, false, false, true, false, false, true, true, false, false, false, false, false, true,
     false, false, false, true, true, true, false, true, true, false, true, true, false, true, true, true]

  const ONES: Register :=
    [true, true, true, true, true, true, true, true, true, true, true, true, true, true, true, true,
     true, true, true, true, true, true, true, true, true, true, true, true, true, true, true, true]

  /** The number the bits from position `k` up stand for. */
  function Value(bits: seq<bool>, k: nat): nat
    requires k <= |bits|
    decreases |bits| - k
  {
    if k == |bits| then 0 else (if bits[k] then 1 else 0) + 2 * Value(bits, k + 1)
  }

  function Digit(bits: seq<bool>, k: nat): nat
    requires k + 4 <= |bits|
  {
    (if bits[k] then 1 else 0) + (if bits[k + 1] then 2 else 0) + (if bits[k + 2] then 4 else 0)
        + (if bits[k + 3] then 8 else 0)
  }

  lemma ValueByDigit(bits: seq<bool>, k: nat)
    requires k + 4 <= |bits|
    ensures Value(bits, k) == Digit(bits, k) + 16 * Value(bits, k + 4)
  {
    assert Value(bits, k + 1) == (if bits[k + 1] then 1 else 0) + 2 * Value(bits, k + 2);
    assert Value(bits, k + 3) == (if bits[k + 3] then 1 else 0) + 2 * Value(bits, k + 4);
  }

  lemma ValueByFourDigits(bits: seq<bool>, k: nat)
    requires k + 16 <= |bits|
    ensures Value(bits, k) == Digit(bits, k) + 0x10 * Digit(bits, k + 4) + 0x100 * Digit(bits, k + 8)
                              + 0x1000 * Digit(bits, k + 12) + 0x10000 * Value(bits, k + 16)
  {
    ValueByDigit(bits, k);
    ValueByDigit(bits, k + 4);
    ValueByDigit(bits, k + 8);
    ValueByDigit(bits, k + 12);
  }

  lemma PolynomialLowDigits(p: Register)
    requires p == POLYNOMIAL
    ensures Digit(p, 0) == 0 && Digit(p, 4) == 2 && Digit(p, 8) == 3 && Digit(p, 12) == 8
  {
  }

  lemma PolynomialHighDigits(p: Register)
    requires p == POLYNOMIAL
    ensures Digit(p, 16) == 8 && Digit(p, 20) == 0xb && Digit(p, 24) == 0xd && Digit(p, 28) == 0xe
  {
  }

  lemma ValueOfDigits(bits: seq<bool>, k: nat)
    requires |bits| == k + 32
    ensures Value(bits, k) == Digit(bits, k) + 0x10 * Digit(bits, k + 4) + 0x100 * Digit(bits, k + 8)
                              + 0x1000 * Digit(bits, k + 12) + 0x10000 * Digit(bits, k + 16)
                              + 0x100000 * Digit(bits, k + 20)
                              + 0x1000000 * Digit(bits, k + 24) + 0x10000000 * Digit(bits, k + 28)
  {
    ValueByFourDigits(bits, k);
    ValueByFourDigits(bits, k + 16);
  }

  /** The constant is 0xedb88320, the value the register is combined with. */
  lemma PolynomialValue()
    ensures Value(POLYNOMIAL, 0) == 0xedb88320
  {
    var p := POLYNOMIAL;
    PolynomialLowDigits(p);
    PolynomialHighDigits(p);
    ValueOfDigits(p, 0);
  }

  /** The low `k` bits of `n`. */
  function BitsOf(n: nat, k: nat): (bits: seq<bool>)
    ensures |bits| == k
  {
    if k == 0 then [] else [n % 2 == 1] + BitsOf(n / 2, k - 1)
  }

  lemma {:induction false} BitsOfInjective(a: nat, b: nat, k: nat)
    requires a < Pow2(k) && b < Pow2(k) && BitsOf(a, k) == BitsOf(b, k)
    ensures a == b
  {
    if k > 0 {
      assert BitsOf(a, k)[0] == BitsOf(b, k)[0];
      assert BitsOf(a, k)[1..] == BitsOf(a / 2, k - 1) && BitsOf(b, k)[1..] == BitsOf(b / 2, k - 1);
      BitsOfInjective(a / 2, b / 2, k - 1);
    }
  }

  function Bits(b: byte): seq<bool> {
    BitsOf(b as int, 8)
  }

  lemma BitsInjective(a: byte, b: byte)
    requires Bits(a) == Bits(b)
    ensures a == b
  {
    assert Pow2(4) == 16 && Pow2(8) == 16 * Pow2(4);
    BitsOfInjective(a as int, b as int, 8);
  }

  function BitString(bytes: seq<byte>): (bits: seq<bool>)
    ensures |bits| == 8 * |bytes|
  {
    if bytes == [] then [] else BitString(bytes[..|bytes| - 1]) + Bits(bytes[|bytes| - 1])
  }

  // ----- the computation -----

  function Xor(a: Register, b: Register): (r: Register)
    ensures forall i :: 0 <= i < 32 ==> r[i] == (a[i] != b[i])
  {
    seq(32, i requires 0 <= i < 32 => a[i] != b[i])
  }

  /** One step of the register: `(c >>> 1) ^ ((c & 1) ? POLYNOMIAL : 0)`. */
  function Shift(c: Register): (r: Register)
    ensures forall i :: 0 <= i < 32 ==> r[i] == ((i < 31 && c[i + 1]) != (c[0] && POLYNOMIAL[i]))
  {
    seq(32, i requires 0 <= i < 32 => (i < 31 && c[i + 1]) != (c[0] && POLYNOMIAL[i]))
  }

  function ShiftBy(c: Register, n: nat): Register {
    if n == 0 then c else Shift(ShiftBy(c, n - 1))
  }

  /** At most 32 bits in the low end of a register. */
  function Pad(bits: seq<bool>): (r: Register)
    requires |bits| <= 32
    ensures forall i :: 0 <= i < 32 ==> r[i] == (i < |bits| && bits[i])
  {
    bits + seq(32 - |bits|, i => false)
  }

  function Absorb(c: Register, b: byte): Register {
    ShiftBy(Xor(c, Pad(Bits(b))), 8)
  }

  function AbsorbAll(c: Register, bytes: seq<byte>): Register {
    if bytes == [] then c else Absorb(AbsorbAll(c, bytes[..|bytes| - 1]), bytes[|bytes| - 1])
  }

  function Crc(bytes: seq<byte>): Register {
    Xor(AbsorbAll(ONES, bytes), ONES)
  }

  method Compute(bytes: seq<byte>) returns (crc: Register)
    ensures crc == Crc(bytes)
  {
    crc := ONES;
    for i := 0 to |bytes|
      invariant crc == AbsorbAll(ONES, bytes[..i])
    {
      assert bytes[..i + 1][..i] == bytes[..i];
      ghost var before := crc;
      crc := Xor(crc, Pad(Bits(bytes[i])));
      for bit := 0 to 8
        invariant crc == ShiftBy(Xor(before, Pad(Bits(bytes[i]))), bit)
      {
        crc := Shift(crc);
      }
    }
    assert bytes[..|bytes|] == bytes;
    crc := Xor(crc, ONES);
  }

  // ----- the register step is a linear bijection -----

  lemma XorCancels(a: Register, b: Register, x: Register)
    ensures Xor(a, x) == Xor(b, x) <==> a == b
    ensures Xor(a, x) == Xor(x, a)
  {
    if Xor(a, x) == Xor(b, x) {
      forall i | 0 <= i < 32 ensures a[i] == b[i] { assert Xor(a, x)[i] == Xor(b, x)[i]; }
    }
  }

  lemma ShiftInjective(a: Register, b: Register)
    requires Shift(a) == Shift(b)
    ensures a == b
  {
    assert Shift(a)[31] == Shift(b)[31];
    forall i | 0 <= i < 32 ensures a[i] == b[i] {
      if i > 0 { assert Shift(a)[i - 1] == Shift(b)[i - 1]; }
    }
  }

  /** Every register value has a predecessor: with injectivity, the step is a bijection. */
  lemma ShiftSurjective(c: Register) returns (p: Register)
    ensures Shift(p) == c
  {
    p := seq(32, i requires 0 <= i < 32 => if i == 0 then c[31] else c[i - 1] != (c[31] && POLYNOMIAL[i - 1]));
    forall i | 0 <= i < 32 ensures Shift(p)[i] == c[i] {
    }
  }

  lemma ShiftIsLinear(a: Register, b: Register)
    ensures Shift(Xor(a, b)) == Xor(Shift(a), Shift(b))
  {
    forall i | 0 <= i < 32 ensures Shift(Xor(a, b))[i] == Xor(Shift(a), Shift(b))[i] {
    }
  }

  lemma {:induction false} ShiftByIsLinear(a: Register, b: Register, n: nat)
    ensures ShiftBy(Xor(a, b), n) == Xor(ShiftBy(a, n), ShiftBy(b, n))
  {
    if n > 0 {
      ShiftByIsLinear(a, b, n - 1);
      ShiftIsLinear(ShiftBy(a, n - 1), ShiftBy(b, n - 1));
    }
  }

  lemma {:induction false} ShiftByInjective(a: Register, b: Register, n: nat)
    requires ShiftBy(a, n) == ShiftBy(b, n)
    ensures a == b
  {
    if n > 0 {
      ShiftInjective(ShiftBy(a, n - 1), ShiftBy(b, n - 1));
      ShiftByInjective(a, b, n - 1);
    }
  }

  /** The loop composes over concatenation. */
  lemma {:induction false} AbsorbAllConcat(c: Register, xs: seq<byte>, ys: seq<byte>)
    ensures AbsorbAll(c, xs + ys) == AbsorbAll(AbsorbAll(c, xs), ys)
  {
    if ys == [] {
      assert xs + ys == xs;
    } else {
      assert (xs + ys)[..|xs + ys| - 1] == xs + ys[..|ys| - 1];
      AbsorbAllConcat(c, xs, ys[..|ys| - 1]);
    }
  }

  // ----- the same register, one message bit at a time -----

  /** The register with one bit set. */
  function Unit(k: nat, on: bool): (r: Register)
    requires k < 32
    ensures forall i :: 0 <= i < 32 ==> r[i] == (i == k && on)
  {
    seq(32, i requires 0 <= i < 32 => i == k && on)
  }

  function AbsorbBits(c: Register, bits: seq<bool>): Register {
    if bits == [] then c
    else Shift(Xor(AbsorbBits(c, bits[..|bits| - 1]), Unit(0, bits[|bits| - 1])))
  }

  /** A lone bit at position k takes k steps to reach the bottom and triggers no feedback on the way. */
  lemma {:induction false} UnitSinks(k: nat, n: nat, on: bool)
    requires n <= k < 32
    ensures ShiftBy(Unit(k, on), n) == Unit(k - n, on)
  {
    if n > 0 {
      UnitSinks(k, n - 1, on);
      var above, below := Unit(k - n + 1, on), Unit(k - n, on);
      forall i | 0 <= i < 32 ensures Shift(above)[i] == below[i] {
      }
    }
  }

  lemma XorAssociative(a: Register, b: Register, c: Register)
    ensures Xor(Xor(a, b), c) == Xor(a, Xor(b, c))
  {
    forall i | 0 <= i < 32 ensures Xor(Xor(a, b), c)[i] == Xor(a, Xor(b, c))[i] {
    }
  }

  /** Up to 32 message bits may be mixed in all at once, ahead of the steps. */
  lemma {:induction false} MixEarly(c: Register, bits: seq<bool>)
    requires |bits| <= 32
    ensures AbsorbBits(c, bits) == ShiftBy(Xor(c, Pad(bits)), |bits|)
  {
    if bits == [] {
      forall i | 0 <= i < 32 ensures Xor(c, Pad([]))[i] == c[i] {
      }
      assert Xor(c, Pad(bits)) == c;
    } else {
      var n := |bits| - 1;
      var rest, last := bits[..n], bits[n];
      MixEarly(c, rest);
      var x := Xor(c, Pad(rest));
      UnitSinks(n, n, last);
      ShiftByIsLinear(x, Unit(n, last), n);
      XorAssociative(c, Pad(rest), Unit(n, last));
      forall i | 0 <= i < 32 ensures Xor(Pad(rest), Unit(n, last))[i] == Pad(bits)[i] {
      }
      assert Xor(Pad(rest), Unit(n, last)) == Pad(bits);
    }
  }

  lemma {:induction false} AbsorbBitsConcat(c: Register, xs: seq<bool>, ys: seq<bool>)
    ensures AbsorbBits(c, xs + ys) == AbsorbBits(AbsorbBits(c, xs), ys)
  {
    if ys == [] {
      assert xs + ys == xs;
    } else {
      assert (xs + ys)[..|xs + ys| - 1] == xs + ys[..|ys| - 1];
      AbsorbBitsConcat(c, xs, ys[..|ys| - 1]);
    }
  }

  /** Byte-wise and bit-wise processing agree. */
  lemma {:induction false} BytesAreBits(c: Register, bytes: seq<byte>)
    ensures AbsorbAll(c, bytes) == AbsorbBits(c, BitString(bytes))
  {
    if bytes != [] {
      var rest, last := bytes[..|bytes| - 1], bytes[|bytes| - 1];
      BytesAreBits(c, rest);
      AbsorbBitsConcat(c, BitString(rest), Bits(last));
      MixEarly(AbsorbAll(c, rest), Bits(last));
    }
  }

  lemma {:induction false} AbsorbBitsInjective(c1: Register, c2: Register, bits: seq<bool>)
    requires AbsorbBits(c1, bits) == AbsorbBits(c2, bits)
    ensures c1 == c2
  {
    if bits != [] {
      var rest, unit := bits[..|bits| - 1], Unit(0, bits[|bits| - 1]);
      ShiftInjective(Xor(AbsorbBits(c1, rest), unit), Xor(AbsorbBits(c2, rest), unit));
      XorCancels(AbsorbBits(c1, rest), AbsorbBits(c2, rest), unit);
      AbsorbBitsInjective(c1, c2, rest);
    }
  }

  // ----- what it always detects -----

  /** Equal length, and the bits differ only in some 32 consecutive positions from `at` on. */
  predicate DifferInBurst(a: seq<bool>, b: seq<bool>, at: nat) {
    |a| == |b| && forall i :: 0 <= i < |a| && !(at <= i < at + 32) ==> a[i] == b[i]
  }

  /** The window itself: two different fillings lead to different registers. */
  lemma WindowDetermined(r: Register, m1: seq<bool>, m2: seq<bool>)
    requires |m1| == |m2| <= 32 && AbsorbBits(r, m1) == AbsorbBits(r, m2)
    ensures m1 == m2
  {
    MixEarly(r, m1);
    MixEarly(r, m2);
    ShiftByInjective(Xor(r, Pad(m1)), Xor(r, Pad(m2)), |m1|);
    XorCancels(Pad(m1), Pad(m2), r);
    XorCancels(Pad(m2), Pad(m1), r);
    forall i | 0 <= i < |m1| ensures m1[i] == m2[i] { assert Pad(m1)[i] == Pad(m2)[i]; }
  }

  /** Around a window: the same bits before it and after it change nothing. */
  lemma FramedWindow(c: Register, head: seq<bool>, m1: seq<bool>, m2: seq<bool>, tail: seq<bool>)
    requires |m1| == |m2| <= 32 && AbsorbBits(c, head + m1 + tail) == AbsorbBits(c, head + m2 + tail)
    ensures m1 == m2
  {
    AbsorbBitsConcat(c, head + m1, tail);
    AbsorbBitsConcat(c, head + m2, tail);
    AbsorbBitsInjective(AbsorbBits(c, head + m1), AbsorbBits(c, head + m2), tail);
    AbsorbBitsConcat(c, head, m1);
    AbsorbBitsConcat(c, head, m2);
    WindowDetermined(AbsorbBits(c, head), m1, m2);
  }

  lemma BurstBetween(c: Register, a: seq<bool>, b: seq<bool>, lo: nat, hi: nat)
    requires |a| == |b| && lo <= hi <= |a| && hi - lo <= 32 && a[..lo] == b[..lo] && a[hi..] == b[hi..]
    requires AbsorbBits(c, a) == AbsorbBits(c, b)
    ensures a == b
  {
    var head, tail := a[..lo], a[hi..];
    CutInThree(a, lo, hi);
    CutInThree(b, lo, hi);
    FramedWindow(c, head, a[lo..hi], b[lo..hi], tail);
  }

  lemma CutInThree(a: seq<bool>, lo: nat, hi: nat)
    requires lo <= hi <= |a|
    ensures a == a[..lo] + a[lo..hi] + a[hi..]
  {
  }

  lemma SlicesAround(a: seq<bool>, b: seq<bool>, at: nat) returns (lo: nat, hi: nat)
    requires DifferInBurst(a, b, at)
    ensures lo <= hi <= |a| && hi - lo <= 32 && a[..lo] == b[..lo] && a[hi..] == b[hi..]
  {
    lo, hi := if at < |a| then at else |a|, if at + 32 < |a| then at + 32 else |a|;
  }

  lemma BurstOfBits(c: Register, a: seq<bool>, b: seq<bool>, at: nat)
    requires DifferInBurst(a, b, at) && AbsorbBits(c, a) == AbsorbBits(c, b)
    ensures a == b
  {
    var lo, hi := SlicesAround(a, b, at);
    BurstBetween(c, a, b, lo, hi);
  }

  lemma {:induction false} BitStringInjective(a: seq<byte>, b: seq<byte>)
    requires BitString(a) == BitString(b)
    ensures a == b
  {
    assert |a| == |b|;
    if a != [] {
      var n := |a| - 1;
      var x, y := BitString(a), BitString(b);
      assert x[..8 * n] == BitString(a[..n]) && y[..8 * n] == BitString(b[..n]);
      assert x[8 * n..] == Bits(a[n]) && y[8 * n..] == Bits(b[n]);
      BitStringInjective(a[..n], b[..n]);
      BitsInjective(a[n], b[n]);
      assert a == a[..n] + [a[n]] && b == b[..n] + [b[n]];
    }
  }

  /** Two different buffers that differ only within 32 consecutive bits never share a checksum. */
  lemma BurstErrorsAreDetected(a: seq<byte>, b: seq<byte>, at: nat)
    requires a != b && DifferInBurst(BitString(a), BitString(b), at)
    ensures Crc(a) != Crc(b)
  {
    if Crc(a) == Crc(b) {
      XorCancels(AbsorbAll(ONES, a), AbsorbAll(ONES, b), ONES);
      BytesAreBits(ONES, a);
      BytesAreBits(ONES, b);
      BurstOfBits(ONES, BitString(a), BitString(b), at);
      BitStringInjective(a, b);
    }
  }

  lemma {:induction false} BitStringAt(bytes: seq<byte>, i: nat)
    requires i < 8 * |bytes|
    ensures BitString(bytes)[i] == Bits(bytes[i / 8])[i % 8]
  {
    var n := |bytes| - 1;
    if i < 8 * n {
      BitStringAt(bytes[..n], i);
    } else {
      assert i / 8 == n && i % 8 == i - 8 * n;
    }
  }

  /** In particular, corruption confined to four adjacent bytes is always detected. */
  lemma FourCorruptBytesAreDetected(a: seq<byte>, b: seq<byte>, at: nat)
    requires |a| == |b| && a != b && forall i :: 0 <= i < |a| && !(at <= i < at + 4) ==> a[i] == b[i]
    ensures Crc(a) != Crc(b)
  {
    var x, y := BitString(a), BitString(b);
    forall i | 0 <= i < |x| && !(8 * at <= i < 8 * at + 32) ensures x[i] == y[i] {
      BitStringAt(a, i);
      BitStringAt(b, i);
    }
    BurstErrorsAreDetected(a, b, 8 * at);
  }
}
