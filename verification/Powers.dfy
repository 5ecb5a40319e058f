/** Powers of two and of ten. */
module Powers {

  function Pow2(k: nat): nat {
    if k == 0 then 1 else 2 * Pow2(k - 1)
  }

  function Pow10(k: nat): nat {
    if k == 0 then 1 else 10 * Pow10(k - 1)
  }

  lemma {:induction false} Pow10Grows(a: nat, b: nat)
    requires a <= b
    ensures Pow10(a) <= Pow10(b)
  {
    if a < b { Pow10Grows(a, b - 1); }
  }

  lemma {:induction false} Pow2Adds(a: nat, b: nat)
    ensures Pow2(a + b) == Pow2(a) * Pow2(b)
  {
    if a > 0 { Pow2Adds(a - 1, b); }
  }

  lemma {:induction false} Pow10Adds(a: nat, b: nat)
    ensures Pow10(a + b) == Pow10(a) * Pow10(b)
  {
    if a > 0 { Pow10Adds(a - 1, b); }
  }

  lemma ProductsGrow(a: nat, b: nat, c: nat, d: nat)
    requires a <= c && b <= d
    ensures a * b <= c * d
  {
  }

  lemma {:induction false} Pow2Grows(a: nat, b: nat)
    requires a <= b
    ensures Pow2(a) <= Pow2(b)
  {
    if a < b { Pow2Grows(a, b - 1); }
  }

  lemma {:induction false} PowersCompare(a: nat, b: nat, k: nat)
    requires Pow2(a) <= Pow10(b)
    ensures Pow2(a * k) <= Pow10(b * k)
  {
    if k > 0 {
      var m, n := a * (k - 1), b * (k - 1);
      PowersCompare(a, b, k - 1);
      Pow2Adds(a, m);
      Pow10Adds(b, n);
      ProductsGrow(Pow2(a), Pow2(m), Pow10(b), Pow10(n));
      assert a * k == a + m && b * k == b + n;
    }
  }

  lemma TwoTo31()
    ensures Pow2(31) == 0x8000_0000
  {
    assert Pow2(8) == 256;
    assert Pow2(16) == 65536 by { assert Pow2(12) == 4096; }
    assert Pow2(24) == 16777216 by { assert Pow2(20) == 1048576; }
    assert Pow2(28) == 268435456;
  }

  /** `2^93` is just below `10^28`. */
  lemma TwoTo93()
    ensures Pow2(93) <= Pow10(28)
  {
    TwoTo31();
    Pow2Adds(31, 62);
    Pow2Adds(31, 31);
    assert Pow10(7) == 10000000;
    Pow10Adds(7, 7);
    Pow10Adds(14, 14);
  }

  /** The largest double is well below `10^309`. */
  lemma TwoTo1024()
    ensures 5 * Pow2(1024) <= Pow10(309)
  {
    TwoTo93();
    PowersCompare(93, 28, 11);
    assert Pow2(1024) == 2 * Pow2(93 * 11);
    assert Pow10(309) == 10 * Pow10(28 * 11);
  }
}
