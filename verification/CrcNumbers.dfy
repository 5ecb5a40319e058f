/**
 The checksum as numbers: the 32-bit words whose bits a register holds, the conditioning of
 section 4.4.7 of PKWARE APPNOTE.TXT, and the residue every buffer leaves with its own checksum.
 */
module CrcNumbers {
  import opened Crc32
  import opened Powers

  // ----- words and registers -----

  predicate Odd(x: bv32) {
    x & 1 == 1
  }

  function Half(x: bv32): bv32 {
    x >> 1
  }

  function Mix(a: bv32, b: bv32): bv32 {
    a ^ b
  }

  function Iterate<T>(f: T -> T, x: T, k: nat): T {
    if k == 0 then x else Iterate(f, f(x), k - 1)
  }

  /** The bits a number has, by asking whether it is odd and halving it. */
  function BitsBy<T>(odd: T -> bool, half: T -> T, x: T): (r: Register)
    ensures forall i :: 0 <= i < 32 ==> r[i] == odd(Iterate(half, x, i))
  {
    seq(32, i requires 0 <= i < 32 => odd(Iterate(half, x, i)))
  }

  /** The register that holds a word. */
  function Reg(x: bv32): Register {
    BitsBy(Odd, Half, x)
  }

  lemma {:induction false} IterateAdds<T>(f: T -> T, x: T, m: nat, n: nat)
    ensures Iterate(f, x, m + n) == Iterate(f, Iterate(f, x, m), n)
  {
    if m > 0 { IterateAdds(f, f(x), m - 1, n); }
  }

  ghost predicate BitByBitAt<T>(odd: T -> bool, half: T -> T, mix: (T, T) -> T, x: T, y: T) {
    half(mix(x, y)) == mix(half(x), half(y)) && (odd(mix(x, y)) <==> odd(x) != odd(y))
  }

  /** Mixing is done bit by bit. */
  ghost predicate BitByBit<T(!new)>(odd: T -> bool, half: T -> T, mix: (T, T) -> T) {
    forall x, y :: BitByBitAt(odd, half, mix, x, y)
  }

  lemma {:induction false} IterateMix<T(!new)>(odd: T -> bool, half: T -> T, mix: (T, T) -> T, a: T, b: T, k: nat)
    requires BitByBit(odd, half, mix)
    ensures Iterate(half, mix(a, b), k) == mix(Iterate(half, a, k), Iterate(half, b, k))
  {
    if k > 0 {
      assert BitByBitAt(odd, half, mix, a, b);
      IterateMix(odd, half, mix, half(a), half(b), k - 1);
    }
  }

  lemma MixBits<T(!new)>(odd: T -> bool, half: T -> T, mix: (T, T) -> T, a: T, b: T)
    requires BitByBit(odd, half, mix)
    ensures BitsBy(odd, half, mix(a, b)) == Xor(BitsBy(odd, half, a), BitsBy(odd, half, b))
  {
    var l, r := BitsBy(odd, half, mix(a, b)), Xor(BitsBy(odd, half, a), BitsBy(odd, half, b));
    forall i | 0 <= i < 32 ensures l[i] == r[i] {
      IterateMix(odd, half, mix, a, b, i);
      assert BitByBitAt(odd, half, mix, Iterate(half, a, i), Iterate(half, b, i));
    }
  }

  lemma MixHalves(a: bv32, b: bv32)
    ensures BitByBitAt(Odd, Half, Mix, a, b)
  {
  }

  lemma WordsMix()
    ensures BitByBit(Odd, Half, Mix)
  {
    forall x, y ensures BitByBitAt(Odd, Half, Mix, x, y) { MixHalves(x, y); }
  }

  lemma RegMix(a: bv32, b: bv32)
    ensures Reg(Mix(a, b)) == Xor(Reg(a), Reg(b))
  {
    WordsMix();
    MixBits(Odd, Half, Mix, a, b);
  }

  function Eighth(x: bv32): bv32 {
    x >> 8
  }

  lemma EightHalves(x: bv32)
    ensures Iterate(Half, x, 8) == Eighth(x)
  {
  }

  lemma IterateFourTimes<T(!new)>(f: T -> T, g: T -> T, x: T)
    requires forall y :: Iterate(f, y, 8) == g(y)
    ensures Iterate(f, x, 32) == g(g(g(g(x))))
  {
    IterateAdds(f, x, 8, 24);
    IterateAdds(f, g(x), 8, 16);
    IterateAdds(f, g(g(x)), 8, 8);
  }

  lemma FourEighths(x: bv32)
    ensures !Odd(Eighth(Eighth(Eighth(Eighth(x)))))
  {
  }

  /** A word has no more than 32 bits. */
  lemma HalvesVanish(x: bv32)
    ensures !Odd(Iterate(Half, x, 32))
  {
    forall y ensures Iterate(Half, y, 8) == Eighth(y) { EightHalves(y); }
    IterateFourTimes(Half, Eighth, x);
    FourEighths(x);
  }

  // ----- the number a word is -----

  /** The number made of the low `k` bits. */
  function Low<T>(odd: T -> bool, half: T -> T, x: T, k: nat): nat {
    if k == 0 then 0 else (if odd(x) then 1 else 0) + 2 * Low(odd, half, half(x), k - 1)
  }

  lemma {:induction false} LowIsValue<T>(odd: T -> bool, half: T -> T, x: T, k: nat)
    requires k <= 32
    ensures Low(odd, half, Iterate(half, x, k), 32 - k) == Value(BitsBy(odd, half, x), k)
    decreases 32 - k
  {
    if k < 32 {
      LowIsValue(odd, half, x, k + 1);
      IterateAdds(half, x, k, 1);
      OneMore(half, Iterate(half, x, k));
    }
  }

  lemma OneMore<T>(f: T -> T, x: T)
    ensures Iterate(f, x, 1) == f(x)
  {
  }

  lemma Doubled(a: nat, p: nat, b: nat)
    ensures 2 * (a + p * b) == 2 * a + (2 * p) * b
  {
  }

  lemma {:induction false} LowSplits<T>(odd: T -> bool, half: T -> T, x: T, m: nat, n: nat)
    ensures Low(odd, half, x, m + n) == Low(odd, half, x, m) + Pow2(m) * Low(odd, half, Iterate(half, x, m), n)
  {
    if m > 0 {
      var y := half(x);
      LowSplits(odd, half, y, m - 1, n);
      Doubled(Low(odd, half, y, m - 1), Pow2(m - 1), Low(odd, half, Iterate(half, y, m - 1), n));
    }
  }

  lemma TwoTo8()
    ensures Pow2(8) == 256
  {
  }

  /** A number from its four bytes. */
  lemma FourBytes<T>(odd: T -> bool, half: T -> T, x: T, y: T, z: T, w: T)
    requires y == Iterate(half, x, 8) && z == Iterate(half, y, 8) && w == Iterate(half, z, 8)
    ensures Low(odd, half, x, 32) == Low(odd, half, x, 8) + 0x100 * Low(odd, half, y, 8)
                                     + 0x1_0000 * Low(odd, half, z, 8) + 0x100_0000 * Low(odd, half, w, 8)
  {
    TwoTo8();
    LowSplits(odd, half, x, 8, 24);
    LowSplits(odd, half, y, 8, 16);
    LowSplits(odd, half, z, 8, 8);
  }

  function LowByte(x: bv32): nat {
    Low(Odd, Half, x, 8)
  }

  lemma WordValue(x: bv32, y: bv32, z: bv32, w: bv32)
    requires y == Eighth(x) && z == Eighth(y) && w == Eighth(z)
    ensures Value(Reg(x), 0) == LowByte(x) + 0x100 * LowByte(y) + 0x1_0000 * LowByte(z) + 0x100_0000 * LowByte(w)
  {
    EightHalves(x);
    EightHalves(y);
    EightHalves(z);
    FourBytes(Odd, Half, x, y, z, w);
    WholeValue(Odd, Half, x);
  }

  lemma WholeValue<T>(odd: T -> bool, half: T -> T, x: T)
    ensures Low(odd, half, x, 32) == Value(BitsBy(odd, half, x), 0)
  {
    LowIsValue(odd, half, x, 0);
  }

  // ----- the step on numbers -----

  /** One step as the loop writes it: `(crc >>> 1) ^ ((crc & 1) ? 0xedb88320 : 0)`. */
  function Step(x: bv32): bv32 {
    Mix(Half(x), if Odd(x) then 0xedb88320 else 0)
  }

  function Steps(x: bv32, n: nat): bv32 {
    if n == 0 then x else Step(Steps(x, n - 1))
  }

  lemma {:induction false} ZeroIsClear<T>(odd: T -> bool, half: T -> T, zero: T, i: nat)
    requires half(zero) == zero && !odd(zero)
    ensures !odd(Iterate(half, zero, i))
  {
    if i > 0 { ZeroIsClear(odd, half, zero, i - 1); }
  }

  /** Halving a word moves its bits down by one. */
  lemma HalfBits<T>(odd: T -> bool, half: T -> T, x: T)
    requires !odd(Iterate(half, x, 32))
    ensures forall i :: 0 <= i < 32 ==> BitsBy(odd, half, half(x))[i] == (i < 31 && BitsBy(odd, half, x)[i + 1])
  {
    forall i | 0 <= i < 32 ensures BitsBy(odd, half, half(x))[i] == (i < 31 && BitsBy(odd, half, x)[i + 1]) {
      assert Iterate(half, x, i + 1) == Iterate(half, half(x), i);
    }
  }

  lemma {:induction false} ValueDetermines(a: seq<bool>, b: seq<bool>, k: nat)
    requires k <= |a| == |b| && Value(a, k) == Value(b, k)
    ensures a[k..] == b[k..]
    decreases |a| - k
  {
    if k < |a| {
      ValueDetermines(a, b, k + 1);
      assert a[k..] == [a[k]] + a[k + 1..] && b[k..] == [b[k]] + b[k + 1..];
    }
  }

  lemma PolyValue()
    ensures Value(Reg(0xedb88320), 0) == 0xedb88320
  {
    WordValue(0xedb88320, 0xedb883, 0xedb8, 0xed);
    assert LowByte(0xedb88320) == 0x20 && LowByte(0xedb883) == 0x83;
    assert LowByte(0xedb8) == 0xb8 && LowByte(0xed) == 0xed;
  }

  lemma PolyReg()
    ensures Reg(0xedb88320) == POLYNOMIAL
  {
    PolyValue();
    PolynomialValue();
    SameValue(Reg(0xedb88320), POLYNOMIAL);
  }

  lemma NoFeedback()
    ensures forall i :: 0 <= i < 32 ==> !Reg(0)[i]
  {
    forall i | 0 <= i < 32 ensures !Reg(0)[i] { ZeroIsClear(Odd, Half, 0, i); }
  }

  /** The step on registers is the step on numbers. */
  lemma StepIsShift(x: bv32)
    ensures Reg(Step(x)) == Shift(Reg(x))
  {
    HalvesVanish(x);
    HalfBits(Odd, Half, x);
    PolyReg();
    NoFeedback();
    RegMix(Half(x), if Odd(x) then 0xedb88320 else 0);
    assert Reg(x)[0] == Odd(Iterate(Half, x, 0));
    ShiftIs(Reg(x), Reg(Half(x)), Reg(if Odd(x) then 0xedb88320 else 0));
  }

  lemma ShiftIs(r: Register, half: Register, feedback: Register)
    requires forall i :: 0 <= i < 32 ==> half[i] == (i < 31 && r[i + 1])
    requires forall i :: 0 <= i < 32 ==> feedback[i] == (r[0] && POLYNOMIAL[i])
    ensures Xor(half, feedback) == Shift(r)
  {
    forall i | 0 <= i < 32 ensures Xor(half, feedback)[i] == Shift(r)[i] {
    }
  }

  lemma {:induction false} StepsAreShifts(x: bv32, n: nat)
    ensures Reg(Steps(x, n)) == ShiftBy(Reg(x), n)
  {
    if n > 0 {
      StepsAreShifts(x, n - 1);
      StepIsShift(Steps(x, n - 1));
    }
  }

  // ----- the conditioning -----

  lemma {:induction false} AllOnes(bits: seq<bool>, k: nat)
    requires k <= |bits| && forall i :: k <= i < |bits| ==> bits[i]
    ensures Value(bits, k) == Pow2(|bits| - k) - 1
    decreases |bits| - k
  {
    if k < |bits| { AllOnes(bits, k + 1); }
  }

  /** The register starts from, and ends with, 0xffffffff. */
  lemma OnesValue()
    ensures Value(ONES, 0) == 0xffff_ffff
  {
    AllOnes(ONES, 0);
    TwoTo31();
    assert Pow2(32) == 2 * Pow2(31);
  }

  lemma OnesWord()
    ensures Value(Reg(0xffffffff), 0) == 0xffff_ffff
  {
    WordValue(0xffffffff, 0xffffff, 0xffff, 0xff);
    assert LowByte(0xffffffff) == 0xff && LowByte(0xffffff) == 0xff;
    assert LowByte(0xffff) == 0xff && LowByte(0xff) == 0xff;
  }

  lemma SameValue(a: Register, b: Register)
    requires Value(a, 0) == Value(b, 0)
    ensures a == b
  {
    ValueDetermines(a, b, 0);
    assert a[0..] == a && b[0..] == b;
  }

  lemma OnesReg()
    ensures Reg(0xffffffff) == ONES
  {
    OnesWord();
    OnesValue();
    SameValue(Reg(0xffffffff), ONES);
  }

  lemma {:induction false} StepsAdd(x: bv32, m: nat, n: nat)
    ensures Steps(x, m + n) == Steps(Steps(x, m), n)
  {
    if n > 0 { StepsAdd(x, m, n - 1); }
  }

  lemma ResidueSteps()
    ensures Steps(0xffffffff, 32) == 0xdebb20e3
  {
    assert Steps(0xffffffff, 8) == 0x2dfd1072;
    assert Steps(0xffffffff, 16) == 0xbe26ed00;
    assert Steps(0xffffffff, 24) == 0xbe26ed;
  }

  // ----- the residue -----

  lemma {:induction false} BitsOfValue(bits: seq<bool>, k: nat)
    requires k <= |bits|
    ensures BitsOf(Value(bits, k), |bits| - k) == bits[k..]
    decreases |bits| - k
  {
    if k < |bits| {
      BitsOfValue(bits, k + 1);
      assert bits[k..] == [bits[k]] + bits[k + 1..];
    }
  }

  lemma {:induction false} ValueBelow(bits: seq<bool>, k: nat)
    requires k <= |bits|
    ensures Value(bits, k) < Pow2(|bits| - k)
    decreases |bits| - k
  {
    if k < |bits| { ValueBelow(bits, k + 1); }
  }

  /** The byte with these bits, the lowest first. */
  function ByteOf(bits: seq<bool>): (b: byte)
    requires |bits| == 8
    ensures Bits(b) == bits
  {
    ValueBelow(bits, 0);
    TwoTo8();
    BitsOfValue(bits, 0);
    assert bits[0..] == bits;
    Value(bits, 0) as byte
  }

  /** The four bytes of a checksum as an archive stores it, the lowest first. */
  function StoredCrc(r: Register): (bytes: seq<byte>)
    ensures |bytes| == 4 && BitString(bytes) == r
  {
    var a, b, c, d := ByteOf(r[..8]), ByteOf(r[8..16]), ByteOf(r[16..24]), ByteOf(r[24..]);
    FourBitStrings(a, b, c, d);
    assert r == r[..8] + r[8..16] + r[16..24] + r[24..];
    [a, b, c, d]
  }

  lemma FourBitStrings(a: byte, b: byte, c: byte, d: byte)
    ensures BitString([a, b, c, d]) == Bits(a) + Bits(b) + Bits(c) + Bits(d)
  {
    var abcd, abc, ab, one, none := [a, b, c, d], [a, b, c], [a, b], [a], [];
    assert abcd[..3] == abc && abc[..2] == ab && ab[..1] == one && one[..0] == none;
    assert BitString(none) == [];
    assert BitString(one) == BitString(none) + Bits(a);
    assert BitString(ab) == BitString(one) + Bits(b);
    assert BitString(abc) == BitString(ab) + Bits(c);
  }

  lemma CancelsOut(r: Register, s: Register)
    ensures Xor(r, Pad(Xor(r, s))) == s
  {
    forall i | 0 <= i < 32 ensures Xor(r, Pad(Xor(r, s)))[i] == s[i] {
    }
  }

  lemma ResidueRegister()
    ensures ShiftBy(ONES, 32) == Reg(0xdebb20e3)
  {
    OnesReg();
    ResidueSteps();
    StepsAreShifts(0xffffffff, 32);
  }

  lemma ResidueValue()
    ensures Value(Reg(0xdebb20e3), 0) == 0xdebb20e3
  {
    WordValue(0xdebb20e3, 0xdebb20, 0xdebb, 0xde);
    assert LowByte(0xdebb20e3) == 0xe3 && LowByte(0xdebb20) == 0x20;
    assert LowByte(0xdebb) == 0xbb && LowByte(0xde) == 0xde;
  }

  /** Any buffer followed by its own stored checksum leaves the register at 0xdebb20e3. */
  lemma Residue(bytes: seq<byte>, start: Register)
    requires Value(start, 0) == 0xffff_ffff
    ensures Value(AbsorbAll(start, bytes + StoredCrc(Crc(bytes))), 0) == 0xdebb20e3
  {
    OnesValue();
    SameValue(start, ONES);
    var r := AbsorbAll(ONES, bytes);
    var stored := StoredCrc(Crc(bytes));
    AbsorbAllConcat(ONES, bytes, stored);
    BytesAreBits(r, stored);
    MixEarly(r, Crc(bytes));
    CancelsOut(r, ONES);
    ResidueRegister();
    ResidueValue();
  }

  // ----- known checksums -----

  /** The bits of a byte have its value. */
  lemma {:induction false} ValueOfBits(n: nat, k: nat, more: nat)
    requires n < Pow2(k)
    ensures Value(BitsOf(n, k) + seq(more, i => false), 0) == n
  {
    var zeros := seq(more, i => false);
    if k == 0 {
      assert BitsOf(n, k) + zeros == zeros;
      NoBits(zeros, 0);
    } else {
      var all, rest := BitsOf(n, k) + zeros, BitsOf(n / 2, k - 1) + zeros;
      ValueOfBits(n / 2, k - 1, more);
      assert all[1..] == rest;
      ValueTail(all);
    }
  }

  lemma {:induction false} NoBits(bits: seq<bool>, k: nat)
    requires k <= |bits| && forall i :: k <= i < |bits| ==> !bits[i]
    ensures Value(bits, k) == 0
    decreases |bits| - k
  {
    if k < |bits| { NoBits(bits, k + 1); }
  }

  lemma {:induction false} ValueShifts(bits: seq<bool>, k: nat)
    requires 0 < |bits| && k < |bits|
    ensures Value(bits[1..], k) == Value(bits, k + 1)
    decreases |bits| - k
  {
    if k + 1 < |bits| { ValueShifts(bits, k + 1); }
  }

  lemma ValueTail(bits: seq<bool>)
    requires bits != []
    ensures Value(bits, 0) == (if bits[0] then 1 else 0) + 2 * Value(bits[1..], 0)
  {
    ValueShifts(bits, 0);
  }

  lemma PaddedByte(b: byte)
    ensures Value(Pad(Bits(b)), 0) == b as nat
  {
    TwoTo8();
    ValueOfBits(b as nat, 8, 24);
  }

  /** The loop over one byte, on numbers. */
  lemma AbsorbWord(x: bv32, y: bv32, w: bv32, b: byte)
    requires Value(Reg(w), 0) == b as nat && Steps(Mix(x, w), 8) == y
    ensures Absorb(Reg(x), b) == Reg(y)
  {
    PaddedByte(b);
    SameValue(Reg(w), Pad(Bits(b)));
    RegMix(x, w);
    StepsAreShifts(Mix(x, w), 8);
  }

  lemma SmallWord(w: bv32, zero: bv32)
    requires w <= 0xff && zero == 0
    ensures Value(Reg(w), 0) == LowByte(w)
  {
    NoBits(Reg(zero), 0) by { NoFeedback(); }
    WholeValue(Odd, Half, zero);
    WordValue(w, zero, zero, zero);
    LowOfZero(zero, 8);
  }

  lemma {:induction false} LowOfZero(zero: bv32, k: nat)
    requires zero == 0
    ensures Low(Odd, Half, zero, k) == 0
  {
    if k > 0 {
      assert Half(zero) == zero && !Odd(zero);
      LowOfZero(zero, k - 1);
    }
  }

  /** The register after the first `n` bytes holds the word `x`. */
  predicate Reaches(bytes: seq<byte>, n: nat, x: bv32)
    requires n <= |bytes|
  {
    AbsorbAll(ONES, bytes[..n]) == Reg(x)
  }

  lemma ReachesNext(bytes: seq<byte>, n: nat, x: bv32, y: bv32, w: bv32)
    requires n < |bytes| && Reaches(bytes, n, x) && w <= 0xff && LowByte(w) == bytes[n] as nat
             && Steps(Mix(x, w), 8) == y
    ensures Reaches(bytes, n + 1, y)
  {
    SmallWord(w, 0);
    AbsorbWord(x, y, w, bytes[n]);
    assert bytes[..n + 1][..n] == bytes[..n];
  }

  lemma ReachesFirst(bytes: seq<byte>)
    ensures Reaches(bytes, 0, 0xffffffff)
  {
    OnesReg();
    assert bytes[..0] == [];
  }

  lemma ReachesEnd(bytes: seq<byte>, x: bv32, y: bv32)
    requires Reaches(bytes, |bytes|, x) && Mix(x, 0xffffffff) == y
    ensures Crc(bytes) == Reg(y)
  {
    OnesReg();
    RegMix(x, 0xffffffff);
    assert bytes[..|bytes|] == bytes;
  }

  lemma ZeroWord()
    ensures Value(Reg(0xd202ef8d), 0) == 0xd202ef8d
  {
    WordValue(0xd202ef8d, 0xd202ef, 0xd202, 0xd2);
    assert LowByte(0xd202ef8d) == 0x8d && LowByte(0xd202ef) == 0xef;
    assert LowByte(0xd202) == 0x02 && LowByte(0xd2) == 0xd2;
  }

  /** The checksum of a zero byte. */
  lemma CrcOfZero(bytes: seq<byte>)
    requires bytes == [0]
    ensures Value(Crc(bytes), 0) == 0xd202ef8d
  {
    ReachesFirst(bytes);
    ReachesNext(bytes, 0, 0xffffffff, 0x2dfd1072, 0);
    ReachesEnd(bytes, 0x2dfd1072, 0xd202ef8d);
    ZeroWord();
  }

  lemma CheckWord()
    ensures Value(Reg(0xcbf43926), 0) == 0xcbf43926
  {
    WordValue(0xcbf43926, 0xcbf439, 0xcbf4, 0xcb);
    assert LowByte(0xcbf43926) == 0x26 && LowByte(0xcbf439) == 0x39;
    assert LowByte(0xcbf4) == 0xf4 && LowByte(0xcb) == 0xcb;
  }

  predicate IsDigits(bytes: seq<byte>) {
    |bytes| == 9 && forall i :: 0 <= i < 9 ==> bytes[i] as int == 0x31 + i
  }

  lemma CheckPart1(bytes: seq<byte>)
    requires IsDigits(bytes) && Reaches(bytes, 0, 0xffffffff)
    ensures Reaches(bytes, 3, 0x77b79c2d)
  {
    ReachesNext(bytes, 0, 0xffffffff, 0x7c231048, 0x31);
    ReachesNext(bytes, 1, 0x7c231048, 0xb0acbb32, 0x32);
    ReachesNext(bytes, 2, 0xb0acbb32, 0x77b79c2d, 0x33);
  }

  lemma CheckPart2(bytes: seq<byte>)
    requires IsDigits(bytes) && Reaches(bytes, 3, 0x77b79c2d)
    ensures Reaches(bytes, 6, 0xf68d2c9e)
  {
    ReachesNext(bytes, 3, 0x77b79c2d, 0x641c1f5c, 0x34);
    ReachesNext(bytes, 4, 0x641c1f5c, 0x340ac5e3, 0x35);
    ReachesNext(bytes, 5, 0x340ac5e3, 0xf68d2c9e, 0x36);
  }

  lemma CheckPart3(bytes: seq<byte>)
    requires IsDigits(bytes) && Reaches(bytes, 6, 0xf68d2c9e)
    ensures Reaches(bytes, 9, 0x340bc6d9)
  {
    ReachesNext(bytes, 6, 0xf68d2c9e, 0xaffc9660, 0x37);
    ReachesNext(bytes, 7, 0xaffc9660, 0x651f2550, 0x38);
    ReachesNext(bytes, 8, 0x651f2550, 0x340bc6d9, 0x39);
  }

  /** The check value of the checksum: that of the text 123456789. */
  lemma CrcOfDigits(bytes: seq<byte>)
    requires IsDigits(bytes)
    ensures Value(Crc(bytes), 0) == 0xcbf43926
  {
    ReachesFirst(bytes);
    CheckPart1(bytes);
    CheckPart2(bytes);
    CheckPart3(bytes);
    ReachesEnd(bytes, 0x340bc6d9, 0xcbf43926);
    CheckWord();
  }
}
