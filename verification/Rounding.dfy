/**
 The version comparison under correct rounding: runs of digits become the nearest double, ties to
 even, and overflow to infinity. The two ways in which the comparison then fails on well-formed
 versions: numbers that are rounded to one, and numbers that overflow.
 */
module Rounding {
  import opened Outcome
  import opened Ordering
  import opened Powers
  import opened Versions
  import opened Precedence

  // ----- the nearest double -----

  /** The distance of the doubles around `v`. */
  function Unit(v: nat): (u: nat)
    ensures u > 0
  {
    if v < EXACT then 1 else 2 * Unit(v / 2)
  }

  predicate RoundsDown(q: nat, r: nat, u: nat) {
    2 * r < u || (2 * r == u && q % 2 == 0)
  }

  /** `u * q + r` to a multiple of `u`. */
  function Rounded(q: nat, r: nat, u: nat): nat {
    if RoundsDown(q, r, u) then u * q else u * q + u
  }

  function Nearest(v: nat): nat {
    Rounded(v / Unit(v), v % Unit(v), Unit(v))
  }

  /** `parseInt` of a run of digits; nothing else is ever read. */
  function ParseInt(s: string): Num {
    if !AllDigits(s) then Fin(0)
    else if Nearest(Value(s)) >= Pow2(1024) then Inf
    else Fin(Nearest(Value(s)))
  }

  lemma {:induction false} UnitRange(v: nat)
    ensures v < EXACT * Unit(v) && (v >= EXACT ==> EXACT * Unit(v) <= 2 * v)
  {
    if v >= EXACT { UnitRange(v / 2); }
  }

  lemma {:induction false} UnitGrows(v: nat, w: nat)
    requires v <= w
    ensures Unit(v) == Unit(w) || 2 * Unit(v) <= Unit(w)
  {
    if v >= EXACT { UnitGrows(v / 2, w / 2); }
  }

  lemma Product(a: nat, b: nat, u: nat)
    requires a < b
    ensures u * a + u <= u * b
  {
    var d := b - a - 1;
    assert u * b == u * a + u + u * d;
  }

  lemma Divided(v: nat, u: nat) returns (q: nat, r: nat)
    requires u == Unit(v)
    ensures v == u * q + r && r < u && Nearest(v) == Rounded(q, r, u)
  {
    q, r := v / u, v % u;
  }

  lemma QuotientGrows(q: nat, r: nat, p: nat, t: nat, u: nat)
    requires r < u && t < u && u * q + r <= u * p + t
    ensures q <= p && (q == p ==> r <= t)
  {
    if p < q { Product(p, q, u); }
  }

  lemma RoundedGrows(q: nat, r: nat, p: nat, t: nat, u: nat)
    requires r < u && t < u && u * q + r <= u * p + t
    ensures Rounded(q, r, u) <= Rounded(p, t, u)
  {
    QuotientGrows(q, r, p, t, u);
    if q < p { Product(q, p, u); }
  }

  /** What lies between two multiples of the unit is rounded to something between them. */
  lemma RoundedStays(q: nat, r: nat, u: nat, low: nat, high: nat)
    requires r < u && u * low <= u * q + r < u * high
    ensures u * low <= Rounded(q, r, u) <= u * high
  {
    QuotientGrows(low, 0, q, r, u);
    if low < q { Product(low, q, u); }
    if high <= q { QuotientBelow(q, r, u, high); }
    Product(q, high, u);
  }

  lemma QuotientBelow(q: nat, r: nat, u: nat, high: nat)
    requires u * q + r < u * high
    ensures q < high
  {
    if high < q { Product(high, q, u); }
  }

  lemma NearestStays(v: nat, u: nat, low: nat, high: nat)
    requires u == Unit(v) && u * low <= v < u * high
    ensures u * low <= Nearest(v) <= u * high
  {
    var q, r := Divided(v, u);
    RoundedStays(q, r, u, low, high);
  }

  lemma SameUnitGrows(v: nat, w: nat, u: nat)
    requires v <= w && u == Unit(v) == Unit(w)
    ensures Nearest(v) <= Nearest(w)
  {
    var q, r := Divided(v, u);
    var p, t := Divided(w, u);
    RoundedGrows(q, r, p, t, u);
  }

  lemma NearestBelow(v: nat)
    ensures Nearest(v) <= EXACT * Unit(v)
  {
    UnitRange(v);
    NearestStays(v, Unit(v), 0, EXACT);
  }

  lemma NearestAbove(v: nat)
    requires v >= EXACT
    ensures EXACT * Unit(v) <= 2 * Nearest(v)
  {
    UnitRange(v);
    NearestStays(v, Unit(v), EXACT / 2, EXACT);
  }

  lemma NearestGrows(v: nat, w: nat)
    requires v <= w
    ensures Nearest(v) <= Nearest(w)
  {
    UnitGrows(v, w);
    if Unit(v) == Unit(w) {
      SameUnitGrows(v, w, Unit(v));
    } else {
      NearestBelow(v);
      NearestAbove(w);
    }
  }

  lemma ExactBelow(v: nat)
    requires v < EXACT
    ensures Nearest(v) == v
  {
    assert Unit(v) == 1;
  }

  lemma ExactIsSmall()
    ensures EXACT < Pow2(1024)
  {
    TwoTo31();
    Pow2Adds(31, 31);
    Pow2Grows(62, 1024);
  }

  /** Correct rounding is everything that is assumed of number parsing. */
  lemma ParseIntIsParser()
    ensures IsParser(ParseInt)
  {
    forall a, b | AllDigits(a) && AllDigits(b) && Value(a) <= Value(b) ensures NumLE(ParseInt(a), ParseInt(b)) {
      NearestGrows(Value(a), Value(b));
    }
    forall a | AllDigits(a) && Value(a) < EXACT ensures ParseInt(a) == Fin(Value(a)) {
      ExactBelow(Value(a));
      ExactIsSmall();
    }
  }

  // ----- writing a number -----

  /** The numeral of a number, without leading zeros. */
  function Decimal(n: nat): (s: string)
    ensures WellFormedNumber(s) && Value(s) == n && (n > 0 ==> s[0] != '0')
  {
    var digit := '0' + (n % 10) as char;
    if n < 10 then
      assert [digit][..0] == "";
      [digit]
    else
      var s := Decimal(n / 10) + [digit];
      assert s[..|s| - 1] == Decimal(n / 10);
      s
  }

  // ----- rounded to one -----

  lemma NextIsRounded(n: nat)
    requires n == EXACT
    ensures Nearest(n) == n && Nearest(n + 1) == n
  {
    assert Unit(n / 2) == 1 && Unit((n + 1) / 2) == 1;
    assert Unit(n) == 2 && Unit(n + 1) == 2;
    assert n % 2 == 0 && (n + 1) % 2 == 1 && n / 2 == (n + 1) / 2;
  }

  /** Versions that differ only in two major numbers rounded to one compare equal, although one is lower. */
  lemma MergedCompareEqual(number: string -> Num, x: string, y: string, a: SemVer, b: SemVer)
    requires IsMonotone(number) && WellFormedNumber(x) && WellFormedNumber(y) && Value(x) < Value(y)
    requires Merged(number, x, y) && number("0").Fin?
    requires a == SemVer([x, "0", "0"], [], None) && b == SemVer([y, "0", "0"], [], None)
    ensures WellFormed(a) && WellFormed(b) && Order11(a, b) == -1 && !PointsRight(number, a, b)
    ensures CompareVersions(number, Some(Text(a, false)), Some(Text(b, false))) == 0
  {
    Order11Step(a, b);
    CompareFormsStep(number, a, b);
    CompareFormsStep(number, b, a);
    NoDifference(number, Tail(a));
    assert Tail(a) == Tail(b);
    ParseReadsBack(number, a, false);
    ParseReadsBack(number, b, false);
    AgreesWithSemVer(number, a, b);
  }

  lemma NoDifference(number: string -> Num, v: SemVer)
    requires v.core == ["0", "0"] && v.pre == [] && number("0").Fin?
    ensures CompareForms(number, v, v) == 0
  {
    var one := Tail(v);
    assert one.core == ["0"] && Tail(one).core == [];
    CompareFormsStep(number, v, v);
    CompareFormsStep(number, one, one);
  }

  lemma NextIsMerged(n: nat)
    requires n == EXACT
    ensures Merged(ParseInt, Decimal(n), Decimal(n + 1)) && ParseInt(Decimal(n)) == Fin(n)
  {
    NextIsRounded(n);
    ExactIsSmall();
    assert Value(Decimal(n)) == n && Value(Decimal(n + 1)) == n + 1;
  }

  /** 9007199254740992.0.0 and 9007199254740993.0.0 compare equal under correct rounding. */
  lemma RoundedVersionsCompareEqual() returns (a: SemVer, b: SemVer)
    ensures WellFormed(a) && WellFormed(b) && Order11(a, b) == -1 && !PointsRight(ParseInt, a, b)
    ensures CompareVersions(ParseInt, Some(Text(a, false)), Some(Text(b, false))) == 0
  {
    var n := EXACT;
    ParseIntIsParser();
    NextIsMerged(n);
    assert Value("0") == 0;
    a, b := SemVer([Decimal(n), "0", "0"], [], None), SemVer([Decimal(n + 1), "0", "0"], [], None);
    MergedCompareEqual(ParseInt, Decimal(n), Decimal(n + 1), a, b);
  }

  lemma LowerByOneId(a: SemVer, b: SemVer, x: string, y: string)
    requires WellFormed(a) && WellFormed(b) && a.core == b.core && a.pre == [x] && b.pre == [y] && x != y
             && IdLower(x, y)
    ensures Order11(a, b) == -1
  {
    PreLowerStart(a.pre, b.pre);
  }

  lemma SameCoreCompares(number: string -> Num, a: SemVer, b: SemVer)
    requires WellFormed(a) && a.core == b.core && a.pre != [] && b.pre != []
    requires forall i :: 0 <= i < 3 ==> number(a.core[i]).Fin?
    ensures CompareForms(number, a, b) == CompareLists(number, a.pre, b.pre)
  {
    NumbersOfThree(number, a.core);
    CoreSame(Numbers(number, a.core));
  }

  lemma MergedIdsCompareEqual(number: string -> Num, a: SemVer, b: SemVer, x: string, y: string)
    requires WellFormed(a) && WellFormed(b) && a.core == b.core && a.pre == [x] && b.pre == [y] && Merged(number, x, y)
    requires forall i :: 0 <= i < 3 ==> number(a.core[i]).Fin?
    ensures CompareVersions(number, Some(Text(a, false)), Some(Text(b, false))) == 0
  {
    ParseReadsBack(number, a, false);
    ParseReadsBack(number, b, false);
    SameCoreCompares(number, a, b);
    assert CompareLists(number, a.pre[1..], b.pre[1..]) == 0;
  }

  lemma SmallIsFinite(s: string)
    requires AllDigits(s) && Value(s) < EXACT
    ensures ParseInt(s).Fin?
  {
    ExactBelow(Value(s));
    ExactIsSmall();
  }

  lemma PrereleaseIsWellFormed(core: seq<string>, x: string)
    requires |core| == 3 && (forall i :: 0 <= i < 3 ==> WellFormedNumber(core[i])) && WellFormedNumber(x)
    ensures WellFormed(SemVer(core, [x], None))
  {
    NumberIsId(x);
  }

  /** Pre-release numbers fail alike, as in 1.0.0-9007199254740992 and 1.0.0-9007199254740993. */
  lemma RoundedPrereleasesCompareEqual(core: seq<string>) returns (a: SemVer, b: SemVer)
    requires |core| == 3 && forall i :: 0 <= i < 3 ==> WellFormedNumber(core[i]) && Value(core[i]) < EXACT
    ensures WellFormed(a) && WellFormed(b) && Order11(a, b) == -1
    ensures CompareVersions(ParseInt, Some(Text(a, false)), Some(Text(b, false))) == 0
  {
    var n := EXACT;
    var x, y := Decimal(n), Decimal(n + 1);
    a, b := SemVer(core, [x], None), SemVer(core, [y], None);
    NextIsMerged(n);
    PrereleaseIsWellFormed(core, x);
    PrereleaseIsWellFormed(core, y);
    LowerByOneId(a, b, x, y);
    forall i | 0 <= i < 3 ensures ParseInt(a.core[i]).Fin? { SmallIsFinite(core[i]); }
    MergedIdsCompareEqual(ParseInt, a, b, x, y);
  }

  /** Rounded to one, and yet compared rightly, because the minor numbers happen to point the same way. */
  lemma AccidentalAgreement() returns (a: SemVer, b: SemVer)
    ensures WellFormed(a) && WellFormed(b) && !ToldApart(ParseInt, a, b) && Agrees(ParseInt, a, b)
  {
    var n := EXACT;
    ParseIntIsParser();
    NextIsMerged(n);
    a, b := SemVer([Decimal(n), "0", "0"], [], None), SemVer([Decimal(n + 1), "1", "0"], [], None);
    CompareFormsStep(ParseInt, Tail(a), Tail(b));
    CompareFormsStep(ParseInt, Tail(b), Tail(a));
    assert "0"[..0] == "" && "1"[..0] == "";
    assert Value("0") == 0 && Value("1") == 1;
    AgreesWithSemVer(ParseInt, a, b);
  }

  // ----- overflow -----

  ghost predicate Overflows(number: string -> Num) {
    forall s {:trigger number(s)} :: AllDigits(s) && Value(s) >= Pow10(309) ==> number(s).Inf?
  }

  lemma ParseIntOverflows()
    ensures Overflows(ParseInt)
  {
    forall s | AllDigits(s) && Value(s) >= Pow10(309) ensures ParseInt(s).Inf? {
      TwoTo1024();
      ExactIsSmall();
      UnitRange(Value(s));
      NearestAbove(Value(s));
    }
  }

  lemma BareNumberReads(number: string -> Num, s: string)
    requires s != "" && AllDigits(s)
    ensures ParseVersion(number, Some(s)).core[0] == number(s)
  {
    assert s + "" == s;
    SpanStops(IsDigit, s, "");
    TrimKeeps(s);
  }

  /** Of two major numbers from `10^309` on each is below the other, and each is below itself. */
  lemma OverflowIsBelowItself(number: string -> Num, s: string, t: string)
    requires Overflows(number) && AllDigits(s) && AllDigits(t) && Value(s) >= Pow10(309) && Value(t) >= Pow10(309)
    ensures CompareVersions(number, Some(s), Some(s)) == -1
    ensures CompareVersions(number, Some(s), Some(t)) == -1 == CompareVersions(number, Some(t), Some(s))
  {
    Pow10Grows(0, 309);
    BareNumberReads(number, s);
    BareNumberReads(number, t);
  }

  /** ... as they are under correct rounding, for instance `10^309`. */
  lemma RoundedOverflowIsBelowItself() returns (s: string)
    ensures WellFormedNumber(s) && Value(s) == Pow10(309) && CompareVersions(ParseInt, Some(s), Some(s)) == -1
  {
    var k := 309;
    s := Decimal(Pow10(k));
    ParseIntOverflows();
    OverflowIsBelowItself(ParseInt, s, s);
  }
}
