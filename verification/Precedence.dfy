/**
 The comparison of versions against section 11 of SemVer 2.0.0: exactly when the two agree, for
 versions with numbers of any length, and what becomes of them under correct rounding.
 */
module Precedence {
  import opened Outcome
  import opened Ordering
  import opened Powers
  import opened Versions

  // ----- section 11 of SemVer 2.0.0 -----

  /** A well-formed version: three numbers, pre-release identifiers, build metadata, all as written. */
  datatype SemVer = SemVer(core: seq<string>, pre: seq<string>, build: Option<string>)

  /** A number without leading zeros, of any length. */
  predicate WellFormedNumber(s: string) {
    IsNumeric(s) && (|s| > 1 ==> s[0] != '0')
  }

  predicate IsIdChar(c: char) {
    IsWord(c) && c != '.'
  }

  predicate WellFormedId(s: string) {
    s != "" && (forall i :: 0 <= i < |s| ==> IsIdChar(s[i])) && (IsNumeric(s) ==> WellFormedNumber(s))
  }

  /** Every number and identifier is well-formed, however many numbers there are. */
  predicate Readable(v: SemVer) {
    && (forall i :: 0 <= i < |v.core| ==> WellFormedNumber(v.core[i]))
    && (forall i :: 0 <= i < |v.pre| ==> WellFormedId(v.pre[i]))
  }

  predicate WellFormed(v: SemVer) {
    && |v.core| == 3 && Readable(v)
    && (v.build.Some? ==> v.build.value != "" && forall i :: 0 <= i < |v.build.value| ==> IsWord(v.build.value[i]))
  }

  /** 11.4.1 to 11.4.3: numbers by value, other identifiers by ASCII order, numbers below the others. */
  predicate IdLower(a: string, b: string) {
    if IsNumeric(a) && IsNumeric(b) then Value(a) < Value(b)
    else if IsNumeric(a) != IsNumeric(b) then IsNumeric(a)
    else LexLess(a, b)
  }

  /** 11.4: the first difference decides; 11.4.4: if there is none, the longer list is higher. */
  ghost predicate PreLower(a: seq<string>, b: seq<string>) {
    exists k: nat :: FirstDifference(a, b, k) && k < |b| && (k == |a| || IdLower(a[k], b[k]))
  }

  predicate FirstDifference<T(==)>(a: seq<T>, b: seq<T>, k: nat) {
    k <= |a| && k <= |b| && a[..k] == b[..k] && (k < |a| && k < |b| ==> a[k] != b[k])
  }

  predicate Digits(core: seq<string>) {
    forall i :: 0 <= i < |core| ==> AllDigits(core[i])
  }

  /** 11.2: major, minor and patch, from left to right, by value. */
  ghost predicate CoreLower(a: seq<string>, b: seq<string>)
    requires |a| == |b| && Digits(a) && Digits(b)
  {
    exists k: nat :: FirstDifference(a, b, k) && k < |a| && Value(a[k]) < Value(b[k])
  }

  /** 11.3: with equal numbers a pre-release version is lower than the normal one. 10: build metadata is ignored. */
  ghost predicate Lower(a: SemVer, b: SemVer)
    requires Readable(a) && Readable(b) && |a.core| == |b.core|
  {
    || CoreLower(a.core, b.core)
    || (a.core == b.core && a.pre != [] && (b.pre == [] || PreLower(a.pre, b.pre)))
  }

  ghost function Order11(a: SemVer, b: SemVer): int
    requires Readable(a) && Readable(b) && |a.core| == |b.core|
  {
    if a.core == b.core && a.pre == b.pre then 0 else if Lower(a, b) then -1 else 1
  }

  ghost function PreOrder(a: seq<string>, b: seq<string>): int {
    if a == b then 0 else if PreLower(a, b) then -1 else 1
  }

  function Numbers(number: string -> Num, core: seq<string>): (r: seq<Num>)
    ensures |r| == |core|
  {
    if core == [] then [] else [number(core[0])] + Numbers(number, core[1..])
  }

  function ParsedForm(number: string -> Num, v: SemVer): (p: Parsed)
    ensures |p.core| == |v.core|
  {
    Parsed(Numbers(number, v.core), if v.pre == [] then None else Some(v.pre))
  }

  // Two well-formed numbers with one value are written alike.

  lemma {:induction false} ValueGrows(s: string)
    requires AllDigits(s) && s != "" && s[0] != '0'
    ensures Value(s) >= Pow10(|s| - 1)
  {
    if |s| > 1 { ValueGrows(s[..|s| - 1]); }
  }

  lemma {:induction false} ValueBelow(s: string)
    requires AllDigits(s)
    ensures Value(s) < Pow10(|s|)
  {
    if s != "" { ValueBelow(s[..|s| - 1]); }
  }

  lemma {:induction false} SameLengthSameText(a: string, b: string)
    requires AllDigits(a) && AllDigits(b) && |a| == |b| && Value(a) == Value(b)
    ensures a == b
  {
    if a != "" {
      var a', b' := a[..|a| - 1], b[..|b| - 1];
      assert a == a' + [a[|a| - 1]] && b == b' + [b[|b| - 1]];
      LastDigit(Value(a'), Value(b'), a[|a| - 1] as int - '0' as int, b[|b| - 1] as int - '0' as int);
      SameLengthSameText(a', b');
    }
  }

  lemma LastDigit(x: nat, y: nat, d: nat, e: nat)
    requires 10 * x + d == 10 * y + e && d < 10 && e < 10
    ensures x == y && d == e
  {
  }

  lemma SameValueSameText(a: string, b: string)
    requires WellFormedNumber(a) && WellFormedNumber(b) && Value(a) == Value(b)
    ensures a == b
  {
    if |a| == |b| {
      SameLengthSameText(a, b);
    } else if |a| < |b| {
      ValueGrows(b);
      ValueBelow(a);
      Pow10Grows(|a|, |b| - 1);
    } else {
      ValueGrows(a);
      ValueBelow(b);
      Pow10Grows(|b|, |a| - 1);
    }
  }

  lemma DifferenceStep<T>(a: seq<T>, b: seq<T>, k: nat)
    requires a != [] && b != [] && a[0] == b[0]
    ensures FirstDifference(a[1..], b[1..], k) ==> FirstDifference(a, b, k + 1)
    ensures k > 0 && FirstDifference(a, b, k) ==> FirstDifference(a[1..], b[1..], k - 1)
    ensures !FirstDifference(a, b, 0)
  {
    if FirstDifference(a[1..], b[1..], k) {
      assert a[..k + 1] == [a[0]] + a[1..][..k] && b[..k + 1] == [b[0]] + b[1..][..k];
    }
    if k > 0 && FirstDifference(a, b, k) {
      assert a[1..][..k - 1] == a[..k][1..] && b[1..][..k - 1] == b[..k][1..];
    }
  }

  lemma PreLowerStep(a: seq<string>, b: seq<string>)
    requires a != [] && b != [] && a[0] == b[0]
    ensures PreLower(a, b) <==> PreLower(a[1..], b[1..])
  {
    if PreLower(a, b) {
      var k: nat :| FirstDifference(a, b, k) && k < |b| && (k == |a| || IdLower(a[k], b[k]));
      DifferenceStep(a, b, k);
    }
    if PreLower(a[1..], b[1..]) {
      var k: nat :| FirstDifference(a[1..], b[1..], k) && k < |b[1..]|
        && (k == |a[1..]| || IdLower(a[1..][k], b[1..][k]));
      DifferenceStep(a, b, k);
      assert FirstDifference(a, b, k + 1);
    }
  }

  lemma PreLowerStart(a: seq<string>, b: seq<string>)
    requires a == [] || b == [] || a[0] != b[0]
    ensures PreLower(a, b) <==> b != [] && (a == [] || IdLower(a[0], b[0]))
  {
    if PreLower(a, b) {
      var k: nat :| FirstDifference(a, b, k) && k < |b| && (k == |a| || IdLower(a[k], b[k]));
      assert k == 0;
    }
    if b != [] && (a == [] || IdLower(a[0], b[0])) { assert FirstDifference(a, b, 0); }
  }

  lemma CoreStep(a: seq<string>, b: seq<string>)
    requires |a| == |b| > 0 && Digits(a) && Digits(b)
    ensures Digits(a[1..]) && Digits(b[1..])
    ensures a[0] == b[0] ==> (CoreLower(a, b) <==> CoreLower(a[1..], b[1..]))
    ensures a[0] != b[0] ==> (CoreLower(a, b) <==> Value(a[0]) < Value(b[0]))
  {
    assert forall i :: 0 <= i < |a[1..]| ==> a[1..][i] == a[i + 1] && b[1..][i] == b[i + 1];
    if CoreLower(a, b) {
      var k: nat :| FirstDifference(a, b, k) && k < |a| && Value(a[k]) < Value(b[k]);
      if k > 0 { assert a[..k][0] == b[..k][0]; }
      if a[0] == b[0] {
        DifferenceStep(a, b, k);
        assert a[1..][k - 1] == a[k] && b[1..][k - 1] == b[k];
      }
    }
    if a[0] == b[0] && CoreLower(a[1..], b[1..]) {
      var k: nat :| FirstDifference(a[1..], b[1..], k) && k < |a[1..]| && Value(a[1..][k]) < Value(b[1..][k]);
      DifferenceStep(a, b, k);
      assert FirstDifference(a, b, k + 1) && a[1..][k] == a[k + 1] && b[1..][k] == b[k + 1];
    }
    if a[0] != b[0] && Value(a[0]) < Value(b[0]) { assert FirstDifference(a, b, 0); }
  }

  lemma IdOrderReversed(a: string, b: string)
    requires WellFormedId(a) && WellFormedId(b) && a != b
    ensures IdLower(a, b) <==> !IdLower(b, a)
  {
    LexTotal(a, b);
    if IsNumeric(a) && IsNumeric(b) && Value(a) == Value(b) { SameValueSameText(a, b); }
  }

  ghost predicate AllIds(a: seq<string>) {
    forall i :: 0 <= i < |a| ==> WellFormedId(a[i])
  }

  lemma PreOrderStep(a: seq<string>, b: seq<string>)
    requires a != [] && b != []
    ensures PreOrder(a, b) == if a[0] == b[0] then PreOrder(a[1..], b[1..]) else if IdLower(a[0], b[0]) then -1 else 1
  {
    if a[0] == b[0] { PreLowerStep(a, b); } else { PreLowerStart(a, b); }
    assert a == [a[0]] + a[1..] && b == [b[0]] + b[1..];
  }

  lemma {:induction false} PreOrderReversed(a: seq<string>, b: seq<string>)
    requires AllIds(a) && AllIds(b)
    ensures PreOrder(a, b) == -PreOrder(b, a)
  {
    if a == [] || b == [] {
      PreLowerStart(a, b);
      PreLowerStart(b, a);
    } else {
      PreOrderStep(a, b);
      PreOrderStep(b, a);
      if a[0] == b[0] { PreOrderReversed(a[1..], b[1..]); } else { IdOrderReversed(a[0], b[0]); }
    }
  }

  // ----- when the comparison tells texts apart -----

  /** The comparison sees the same as the texts say: equal where they are equal, different where they differ. */
  predicate Apart(number: string -> Num, a: string, b: string) {
    IsNumeric(a) && IsNumeric(b) ==> if a == b then number(a).Fin? else number(a) != number(b)
  }

  /** Two different numbers were rounded to one. */
  predicate Merged(number: string -> Num, a: string, b: string) {
    a != b && IsNumeric(a) && IsNumeric(b) && number(a) == number(b) && number(a).Fin?
  }

  /** The results of comparing both ways, against the order of what is compared. */
  predicate Points(there: int, back: int, lower: bool) {
    if lower then there == -1 && back == 1 else there == 1 && back == -1
  }

  /** On the common beginning every number is finite, and at the first difference numbers are told apart. */
  predicate ListsToldApart(number: string -> Num, a: seq<string>, b: seq<string>) {
    a == [] || b == [] || (Apart(number, a[0], b[0]) && (a[0] == b[0] ==> ListsToldApart(number, a[1..], b[1..])))
  }

  /** ... or rounded to one, while what follows happens to point the way of the first difference. */
  predicate ListsPointRight(number: string -> Num, a: seq<string>, b: seq<string>) {
    || a == [] || b == []
    || (Apart(number, a[0], b[0]) && (a[0] == b[0] ==> ListsPointRight(number, a[1..], b[1..])))
    || (Merged(number, a[0], b[0])
        && Points(CompareLists(number, a[1..], b[1..]), CompareLists(number, b[1..], a[1..]), IdLower(a[0], b[0])))
  }

  lemma IdentifierAgrees(number: string -> Num, a: string, b: string)
    requires IsMonotone(number) && WellFormedId(a) && WellFormedId(b)
    ensures var there, back := CompareIdentifier(number, a, b), CompareIdentifier(number, b, a);
            if !Apart(number, a, b) then there == back == (if Merged(number, a, b) then 0 else -1)
            else if a == b then there == back == 0 else Points(there, back, IdLower(a, b))
  {
    LexTotal(a, b);
    if IsNumeric(a) && IsNumeric(b) && Value(a) == Value(b) { SameValueSameText(a, b); }
  }

  /** Both ways the lists compare as section 11 says, exactly when the first decision points the right way. */
  lemma {:induction false} ListsAgree(number: string -> Num, a: seq<string>, b: seq<string>)
    requires IsMonotone(number) && AllIds(a) && AllIds(b)
    ensures CompareLists(number, a, b) == PreOrder(a, b) && CompareLists(number, b, a) == PreOrder(b, a)
       <==> ListsPointRight(number, a, b)
  {
    if a == [] || b == [] {
      PreLowerStart(a, b);
      PreLowerStart(b, a);
    } else {
      IdentifierAgrees(number, a[0], b[0]);
      PreOrderStep(a, b);
      PreOrderStep(b, a);
      PreOrderReversed(a, b);
      if a[0] == b[0] { ListsAgree(number, a[1..], b[1..]); } else { IdOrderReversed(a[0], b[0]); }
    }
  }

  function Tail(v: SemVer): SemVer
    requires v.core != []
  {
    v.(core := v.core[1..])
  }

  predicate ToldApart(number: string -> Num, a: SemVer, b: SemVer)
    requires |a.core| == |b.core|
    decreases |a.core|
  {
    if a.core == [] then a.pre == [] || b.pre == [] || ListsToldApart(number, a.pre, b.pre)
    else Apart(number, a.core[0], b.core[0]) && (a.core[0] == b.core[0] ==> ToldApart(number, Tail(a), Tail(b)))
  }

  function CompareForms(number: string -> Num, a: SemVer, b: SemVer): int
    requires |a.core| == |b.core|
  {
    Compare(number, ParsedForm(number, a), ParsedForm(number, b))
  }

  /** The first position whose numbers differ points the way of the first difference in the texts. */
  predicate PointsRight(number: string -> Num, a: SemVer, b: SemVer)
    requires |a.core| == |b.core| && Readable(a) && Readable(b)
    decreases |a.core|
  {
    if a.core == [] then a.pre == [] || b.pre == [] || ListsPointRight(number, a.pre, b.pre)
    else
      var x, y := a.core[0], b.core[0];
      || (Apart(number, x, y) && (x == y ==> PointsRight(number, Tail(a), Tail(b))))
      || (Merged(number, x, y)
          && Points(CompareForms(number, Tail(a), Tail(b)), CompareForms(number, Tail(b), Tail(a)),
             Value(x) < Value(y)))
  }

  /** The comparison is the precedence of section 11, whichever way round it is asked. */
  ghost predicate Agrees(number: string -> Num, a: SemVer, b: SemVer)
    requires Readable(a) && Readable(b) && |a.core| == |b.core|
  {
    CompareForms(number, a, b) == Order11(a, b) && CompareForms(number, b, a) == Order11(b, a)
  }

  lemma CompareFormsStep(number: string -> Num, a: SemVer, b: SemVer)
    requires |a.core| == |b.core| > 0
    ensures var diff := CompareNum(number(a.core[0]), number(b.core[0]));
            CompareForms(number, a, b) == if diff != 0 then diff else CompareForms(number, Tail(a), Tail(b))
  {
    assert Numbers(number, a.core)[1..] == Numbers(number, Tail(a).core);
    assert Numbers(number, b.core)[1..] == Numbers(number, Tail(b).core);
  }

  lemma SameCoreStep(a: seq<string>, b: seq<string>)
    requires |a| == |b| > 0 && a[0] == b[0]
    ensures a == b <==> a[1..] == b[1..]
  {
    assert a == [a[0]] + a[1..] && b == [b[0]] + b[1..];
  }

  lemma TailIsReadable(v: SemVer)
    requires Readable(v) && v.core != []
    ensures Readable(Tail(v))
  {
  }

  lemma Order11Step(a: SemVer, b: SemVer)
    requires Readable(a) && Readable(b) && |a.core| == |b.core| > 0
    ensures Readable(Tail(a)) && Readable(Tail(b))
    ensures var x, y := a.core[0], b.core[0];
            Order11(a, b) == if x == y then Order11(Tail(a), Tail(b)) else if Value(x) < Value(y) then -1 else 1
  {
    TailIsReadable(a);
    TailIsReadable(b);
    CoreStep(a.core, b.core);
    if a.core[0] == b.core[0] { SameCoreStep(a.core, b.core); }
  }

  lemma Order11Ends(a: SemVer, b: SemVer)
    requires Readable(a) && Readable(b) && a.core == b.core == []
    ensures Order11(a, b)
            == if a.pre == [] then (if b.pre == [] then 0 else 1) else if b.pre == [] then -1
               else PreOrder(a.pre, b.pre)
  {
  }

  lemma {:induction false} Order11Reversed(a: SemVer, b: SemVer)
    requires Readable(a) && Readable(b) && |a.core| == |b.core|
    ensures Order11(a, b) == -Order11(b, a)
    decreases |a.core|
  {
    if a.core == [] {
      Order11Ends(a, b);
      Order11Ends(b, a);
      PreOrderReversed(a.pre, b.pre);
    } else {
      Order11Step(a, b);
      Order11Step(b, a);
      if a.core[0] == b.core[0] {
        Order11Reversed(Tail(a), Tail(b));
      } else if Value(a.core[0]) == Value(b.core[0]) {
        SameValueSameText(a.core[0], b.core[0]);
      }
    }
  }

  lemma NumberIsId(s: string)
    requires WellFormedNumber(s)
    ensures WellFormedId(s)
  {
  }

  /** Versions compare as section 11 says, both ways, exactly when the first decision points the right way. */
  lemma {:induction false} AgreesWithSemVer(number: string -> Num, a: SemVer, b: SemVer)
    requires IsMonotone(number) && Readable(a) && Readable(b) && |a.core| == |b.core|
    ensures Agrees(number, a, b) <==> PointsRight(number, a, b)
    decreases |a.core|
  {
    if a.core == [] {
      Order11Ends(a, b);
      Order11Ends(b, a);
      ListsAgree(number, a.pre, b.pre);
    } else {
      var x, y := a.core[0], b.core[0];
      NumberIsId(x);
      NumberIsId(y);
      IdentifierAgrees(number, x, y);
      CompareFormsStep(number, a, b);
      CompareFormsStep(number, b, a);
      Order11Step(a, b);
      Order11Step(b, a);
      Order11Reversed(a, b);
      if x == y { AgreesWithSemVer(number, Tail(a), Tail(b)); } else { IdOrderReversed(x, y); }
    }
  }

  lemma {:induction false} ListsToldApartPointRight(number: string -> Num, a: seq<string>, b: seq<string>)
    requires ListsToldApart(number, a, b)
    ensures ListsPointRight(number, a, b)
  {
    if a != [] && b != [] && a[0] == b[0] { ListsToldApartPointRight(number, a[1..], b[1..]); }
  }

  /** Being told apart is enough. */
  lemma {:induction false} ToldApartPointsRight(number: string -> Num, a: SemVer, b: SemVer)
    requires Readable(a) && Readable(b) && |a.core| == |b.core| && ToldApart(number, a, b)
    ensures PointsRight(number, a, b)
    decreases |a.core|
  {
    if a.core == [] {
      if a.pre != [] && b.pre != [] { ListsToldApartPointRight(number, a.pre, b.pre); }
    } else if a.core[0] == b.core[0] {
      ToldApartPointsRight(number, Tail(a), Tail(b));
    }
  }

  // ----- numbers below 2^53 -----

  predicate SmallId(s: string) {
    IsNumeric(s) ==> Value(s) < EXACT
  }

  predicate Small(v: SemVer) {
    (forall i :: 0 <= i < |v.core| ==> SmallId(v.core[i])) && forall i :: 0 <= i < |v.pre| ==> SmallId(v.pre[i])
  }

  lemma SmallApart(number: string -> Num, a: string, b: string)
    requires IsParser(number) && WellFormedId(a) && WellFormedId(b) && SmallId(a) && SmallId(b)
    ensures Apart(number, a, b)
  {
    if IsNumeric(a) && IsNumeric(b) && Value(a) == Value(b) { SameValueSameText(a, b); }
  }

  lemma {:induction false} SmallListsToldApart(number: string -> Num, a: seq<string>, b: seq<string>)
    requires IsParser(number) && AllIds(a) && AllIds(b)
    requires (forall i :: 0 <= i < |a| ==> SmallId(a[i])) && forall i :: 0 <= i < |b| ==> SmallId(b[i])
    ensures ListsToldApart(number, a, b)
  {
    if a != [] && b != [] {
      SmallApart(number, a[0], b[0]);
      SmallListsToldApart(number, a[1..], b[1..]);
    }
  }

  /** With all numbers below 2^53 the comparison is the precedence of section 11. */
  lemma {:induction false} SmallToldApart(number: string -> Num, a: SemVer, b: SemVer)
    requires IsParser(number) && Readable(a) && Readable(b) && |a.core| == |b.core| && Small(a) && Small(b)
    ensures ToldApart(number, a, b)
    decreases |a.core|
  {
    if a.core == [] {
      SmallListsToldApart(number, a.pre, b.pre);
    } else {
      NumberIsId(a.core[0]);
      NumberIsId(b.core[0]);
      SmallApart(number, a.core[0], b.core[0]);
      SmallToldApart(number, Tail(a), Tail(b));
    }
  }

  // ----- reading a well-formed version back -----

  function JoinDots(parts: seq<string>): string {
    if parts == [] then "" else if |parts| == 1 then parts[0] else parts[0] + "." + JoinDots(parts[1..])
  }

  /** How a version is written. */
  function Show(v: SemVer): string
    requires |v.core| == 3
  {
    v.core[0] + ("." + (v.core[1] + ("." + (v.core[2] + Suffix(v)))))
  }

  function Suffix(v: SemVer): string {
    (if v.pre == [] then "" else "-" + JoinDots(v.pre)) + if v.build.Some? then "+" + v.build.value else ""
  }

  lemma {:induction false} SpanStops(p: char -> bool, a: string, b: string)
    requires (forall i :: 0 <= i < |a| ==> p(a[i])) && (b == "" || !p(b[0]))
    ensures Span(p, a + b) == |a| && (a + b)[..|a|] == a && (a + b)[|a|..] == b
  {
    if a == "" {
      assert a + b == b;
    } else {
      assert (a + b)[1..] == a[1..] + b;
      SpanStops(p, a[1..], b);
    }
  }

  lemma DotNumberReads(a: string, b: string)
    requires IsNumeric(a) && (b == "" || !IsDigit(b[0]))
    ensures DotNumber("." + (a + b)) == (Some(a), b)
  {
    assert ("." + (a + b))[1..] == a + b;
    SpanStops(IsDigit, a, b);
  }

  lemma {:induction false} PrereleaseSplits(pre: seq<string>)
    requires pre != [] && AllIds(pre)
    ensures SplitOn('.', JoinDots(pre)) == pre
  {
    assert '.' !in pre[0];
    if |pre| == 1 {
      SplitName('.', pre[0]);
    } else {
      PrereleaseSplits(pre[1..]);
      SplitAtFirst('.', pre[0], JoinDots(pre[1..]));
    }
    assert [pre[0]] + pre[1..] == pre;
  }

  lemma {:induction false} NothingEmpty(pre: seq<string>)
    requires AllIds(pre)
    ensures NonEmpty(pre) == pre
  {
    if pre != [] {
      NothingEmpty(pre[1..]);
      assert [pre[0]] + pre[1..] == pre;
    }
  }

  lemma {:induction false} PrereleaseIsWords(pre: seq<string>)
    requires pre != [] && AllIds(pre)
    ensures JoinDots(pre) != "" && forall i :: 0 <= i < |JoinDots(pre)| ==> IsWord(JoinDots(pre)[i])
  {
    if |pre| > 1 { PrereleaseIsWords(pre[1..]); }
  }

  /** The identifiers come back one by one, and every character of them is a word character. */
  lemma PrereleaseReads(pre: seq<string>)
    requires pre != [] && AllIds(pre)
    ensures SplitOn('.', JoinDots(pre)) == pre && NonEmpty(pre) == pre
    ensures JoinDots(pre) != "" && forall i :: 0 <= i < |JoinDots(pre)| ==> IsWord(JoinDots(pre)[i])
  {
    PrereleaseSplits(pre);
    NothingEmpty(pre);
    PrereleaseIsWords(pre);
  }

  lemma DashReads(v: SemVer)
    requires WellFormed(v)
    ensures ParsePrerelease(DashWords(Suffix(v))) == if v.pre == [] then None else Some(v.pre)
    ensures Suffix(v) == "" || (!IsDigit(Suffix(v)[0]) && Suffix(v)[0] != '.')
  {
    var meta := if v.build.Some? then "+" + v.build.value else "";
    if v.pre == [] {
      assert Suffix(v) == meta;
    } else {
      PrereleaseReads(v.pre);
      WordsRead(JoinDots(v.pre), meta);
      Assoc("-", JoinDots(v.pre), meta);
    }
  }

  lemma WordsRead(words: string, meta: string)
    requires words != "" && (forall i :: 0 <= i < |words| ==> IsWord(words[i])) && (meta == "" || !IsWord(meta[0]))
    ensures DashWords("-" + (words + meta)) == Some(words)
  {
    SpanStops(IsWord, words, meta);
    assert ("-" + (words + meta))[1..] == words + meta;
  }

  lemma TrimKeeps(s: string)
    requires forall i :: 0 <= i < |s| ==> !IsSpace(s[i])
    ensures Trim(s) == s
  {
    TrimByIs(IsSpace, s, 0, |s|);
  }

  lemma ShowHasNoSpace(v: SemVer, i: nat)
    requires WellFormed(v) && i < |Show(v)|
    ensures !IsSpace(Show(v)[i])
  {
    if v.pre != [] { PrereleaseReads(v.pre); }
    var c := Show(v)[i];
    assert c in v.core[0] || c in v.core[1] || c in v.core[2] || c == '.' || c in Suffix(v);
    if c in Suffix(v) { SuffixHasNoSpace(v, c); }
  }

  lemma SuffixHasNoSpace(v: SemVer, c: char)
    requires WellFormed(v) && c in Suffix(v)
    ensures IsWord(c) || c == '+'
  {
    if v.pre != [] { PrereleaseReads(v.pre); }
    assert c == '-' || c == '+' || (v.pre != [] && c in JoinDots(v.pre)) || (v.build.Some? && c in v.build.value);
  }

  lemma StripShow(v: SemVer, prefixed: bool)
    requires WellFormed(v)
    ensures Strip(Some((if prefixed then "v" else "") + Show(v))) == Show(v)
    ensures Show(v) != "" && FromDigit(Show(v)) == Show(v)
  {
    var text := Show(v);
    var whole := (if prefixed then "v" else "") + text;
    forall i | 0 <= i < |whole| ensures !IsSpace(whole[i]) {
      if !prefixed { ShowHasNoSpace(v, i); } else if i > 0 { ShowHasNoSpace(v, i - 1); }
    }
    TrimKeeps(whole);
    assert text[0] == v.core[0][0] && IsDigit(text[0]);
  }

  lemma NumbersRead(number: string -> Num, v: SemVer)
    requires WellFormed(v)
    ensures ParseNumbers(number, Show(v)) == ParsedForm(number, v)
  {
    var r2 := Suffix(v);
    var r1 := "." + (v.core[2] + r2);
    DashReads(v);
    NumbersOfThree(number, v.core);
    SpanStops(IsDigit, v.core[0], "." + (v.core[1] + r1));
    DotNumberReads(v.core[1], r1);
    DotNumberReads(v.core[2], r2);
  }

  /**
   A well-formed version, with or without the leading `v`, is read back as it was written, without
   its build metadata.
   */
  lemma ParseReadsBack(number: string -> Num, v: SemVer, prefixed: bool)
    requires WellFormed(v)
    ensures ParseVersion(number, Some((if prefixed then "v" else "") + Show(v))) == ParsedForm(number, v)
  {
    StripShow(v, prefixed);
    NumbersRead(number, v);
  }

  lemma NumbersOfThree(number: string -> Num, core: seq<string>)
    requires |core| == 3
    ensures Numbers(number, core) == [number(core[0]), number(core[1]), number(core[2])]
  {
    assert core[1..][1..] == core[2..] && core[2..][1..] == [];
    assert Numbers(number, core[2..]) == [number(core[2])];
    assert Numbers(number, core[1..]) == [number(core[1])] + Numbers(number, core[2..]);
  }

  function Text(v: SemVer, prefixed: bool): string
    requires |v.core| == 3
  {
    (if prefixed then "v" else "") + Show(v)
  }

  /**
   So the texts of well-formed versions compare as section 11 says, exactly when the first decision
   points the right way.
   */
  lemma TextsCompareAsSemVer(number: string -> Num, a: SemVer, b: SemVer, va: bool, vb: bool)
    requires IsMonotone(number) && WellFormed(a) && WellFormed(b)
    ensures var left, right := Some(Text(a, va)), Some(Text(b, vb));
            CompareVersions(number, left, right) == Order11(a, b)
                && CompareVersions(number, right, left) == Order11(b, a)
            <==> PointsRight(number, a, b)
  {
    ParseReadsBack(number, a, va);
    ParseReadsBack(number, b, vb);
    AgreesWithSemVer(number, a, b);
  }

  /** ... which is so whenever all numbers are below 2^53. */
  lemma SmallTextsCompareAsSemVer(number: string -> Num, a: SemVer, b: SemVer, va: bool, vb: bool)
    requires IsParser(number) && WellFormed(a) && WellFormed(b) && Small(a) && Small(b)
    ensures CompareVersions(number, Some(Text(a, va)), Some(Text(b, vb))) == Order11(a, b)
  {
    SmallToldApart(number, a, b);
    ToldApartPointsRight(number, a, b);
    TextsCompareAsSemVer(number, a, b, va, vb);
  }
}
