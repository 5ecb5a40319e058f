/**
 Versions as they are compared: lenient parsing, the three-way comparison with its order laws, and
 the choice of the latest published version. How a run of digits becomes a number is a parameter,
 since that is where rounding and overflow happen.
 */
module Versions {
  import opened Outcome
  import opened Ordering

  /** A number as the comparison sees it; enough digits make it infinite. */
  datatype Num = Fin(n: nat) | Inf

  predicate IsDigit(c: char) {
    '0' <= c <= '9'
  }

  predicate AllDigits(s: string) {
    forall i :: 0 <= i < |s| ==> IsDigit(s[i])
  }

  /** `/^\d+$/` */
  predicate IsNumeric(s: string) {
    s != "" && AllDigits(s)
  }

  function Value(s: string): nat
    requires AllDigits(s)
  {
    if s == "" then 0 else 10 * Value(s[..|s| - 1]) + (s[|s| - 1] as int - '0' as int)
  }

  const EXACT: nat := 0x20_0000_0000_0000

  /** A larger run of digits never becomes a smaller number. */
  ghost predicate IsMonotone(number: string -> Num) {
    forall a, b {:trigger number(a), number(b)} ::
      AllDigits(a) && AllDigits(b) && Value(a) <= Value(b) ==> NumLE(number(a), number(b))
  }

  /** What is assumed of number parsing: monotone, and exact below 2^53. */
  ghost predicate IsParser(number: string -> Num) {
    IsMonotone(number)
        && forall a {:trigger number(a)} :: AllDigits(a) && Value(a) < EXACT ==> number(a) == Fin(Value(a))
  }

  predicate NumLE(a: Num, b: Num) {
    b.Inf? || (a.Fin? && a.n <= b.n)
  }

  // ----- parsing -----

  datatype Parsed = Parsed(core: seq<Num>, prerelease: Option<seq<string>>)

  predicate IsSpace(c: char) {
    var n := c as int;
    9 <= n <= 13 || n == 32 || n == 0xA0 || n == 0x1680 || 0x2000 <= n <= 0x200A || n == 0x2028 || n == 0x2029
    || n == 0x202F || n == 0x205F || n == 0x3000 || n == 0xFEFF
  }

  function Trim(s: string): string {
    TrimBy(IsSpace, s)
  }

  predicate IsWord(c: char) {
    IsDigit(c) || 'A' <= c <= 'Z' || 'a' <= c <= 'z' || c == '.' || c == '-'
  }

  /** The longest prefix of characters that satisfy `p`. */
  function Span(p: char -> bool, s: string): (n: nat)
    ensures n <= |s|
  {
    if s == "" || !p(s[0]) then 0 else 1 + Span(p, s[1..])
  }

  /** From the first digit on. */
  function FromDigit(s: string): string {
    if s == "" || IsDigit(s[0]) then s else FromDigit(s[1..])
  }

  /** `(?:\.(\d+))?` */
  function DotNumber(s: string): (Option<string>, string) {
    var n := if s != "" && s[0] == '.' then Span(IsDigit, s[1..]) else 0;
    if n == 0 then (None, s) else (Some(s[1..][..n]), s[1..][n..])
  }

  /** `(?:-([0-9A-Za-z.-]+))?` */
  function DashWords(s: string): Option<string> {
    var n := if s != "" && s[0] == '-' then Span(IsWord, s[1..]) else 0;
    if n == 0 then None else Some(s[1..][..n])
  }

  function NonEmpty(parts: seq<string>): seq<string> {
    if parts == [] then [] else (if parts[0] == "" then [] else [parts[0]]) + NonEmpty(parts[1..])
  }

  function ParsePrerelease(text: Option<string>): Option<seq<string>> {
    if text.None? then None
    else
      var parts := NonEmpty(SplitOn('.', text.value));
      if parts == [] then None else Some(parts)
  }

  function ToNumber(number: string -> Num, part: Option<string>): Num {
    number(if part.Some? then part.value else "0")
  }

  /** Without surrounding space and one leading `v`. */
  function Strip(version: Option<string>): string {
    var trimmed := Trim(if version.Some? then version.value else "");
    if "v" <= trimmed then trimmed[1..] else trimmed
  }

  /** The text from its first digit on. */
  function ParseNumbers(number: string -> Num, s: string): (r: Parsed)
    ensures |r.core| == 3
  {
    var n := Span(IsDigit, s);
    var (minor, r1) := DotNumber(s[n..]);
    var (patch, r2) := DotNumber(r1);
    Parsed([number(s[..n]), ToNumber(number, minor), ToNumber(number, patch)], ParsePrerelease(DashWords(r2)))
  }

  function ParseVersion(number: string -> Num, version: Option<string>): (r: Parsed)
    ensures |r.core| == 3
  {
    var s := FromDigit(Strip(version));
    if s == "" then Parsed([Fin(0), Fin(0), Fin(0)], None) else ParseNumbers(number, s)
  }

  // ----- comparing -----

  /** The sign of a difference; that of two infinities is not a number, which is neither zero nor positive. */
  function CompareNum(a: Num, b: Num): (r: int)
    ensures -1 <= r <= 1
  {
    if a.Inf? then (if b.Inf? then -1 else 1)
    else if b.Inf? then -1
    else if a.n == b.n then 0 else if a.n > b.n then 1 else -1
  }

  function CompareIdentifier(number: string -> Num, a: string, b: string): (r: int)
    ensures -1 <= r <= 1
  {
    if IsNumeric(a) && IsNumeric(b) then CompareNum(number(a), number(b))
    else if IsNumeric(a) then -1
    else if IsNumeric(b) then 1
    else if a == b then 0 else if LexLess(b, a) then 1 else -1
  }

  function CompareLists(number: string -> Num, a: seq<string>, b: seq<string>): (r: int)
    ensures -1 <= r <= 1
  {
    if a == [] && b == [] then 0
    else if a == [] then -1
    else if b == [] then 1
    else
      var diff := CompareIdentifier(number, a[0], b[0]);
      if diff != 0 then diff else CompareLists(number, a[1..], b[1..])
  }

  function ComparePrerelease(number: string -> Num, a: Option<seq<string>>, b: Option<seq<string>>): (r: int)
    ensures -1 <= r <= 1
  {
    if a.None? && b.None? then 0
    else if a.None? then 1
    else if b.None? then -1
    else CompareLists(number, a.value, b.value)
  }

  function CompareCore(a: seq<Num>, b: seq<Num>): (r: int)
    requires |a| == |b|
    ensures -1 <= r <= 1
  {
    if a == [] then 0
    else
      var diff := CompareNum(a[0], b[0]);
      if diff != 0 then diff else CompareCore(a[1..], b[1..])
  }

  function Compare(number: string -> Num, a: Parsed, b: Parsed): (r: int)
    requires |a.core| == |b.core|
    ensures -1 <= r <= 1
  {
    var diff := CompareCore(a.core, b.core);
    if diff != 0 then diff else ComparePrerelease(number, a.prerelease, b.prerelease)
  }

  function CompareVersions(number: string -> Num, a: Option<string>, b: Option<string>): int {
    Compare(number, ParseVersion(number, a), ParseVersion(number, b))
  }

  // ----- the comparison as it runs -----

  method RunComparePrerelease(number: string -> Num, a: Option<seq<string>>, b: Option<seq<string>>) returns (r: int)
    ensures r == ComparePrerelease(number, a, b)
  {
    if a.None? && b.None? { return 0; }
    if a.None? { return 1; }
    if b.None? { return -1; }
    var l, m := a.value, b.value;
    var length := if |l| > |m| then |l| else |m|;
    assert l[0..] == l && m[0..] == m;
    for i := 0 to length
      invariant i <= |l| && i <= |m| && CompareLists(number, l[i..], m[i..]) == CompareLists(number, l, m)
    {
      if i >= |l| { return -1; }
      if i >= |m| { return 1; }
      var diff := CompareIdentifier(number, l[i], m[i]);
      if diff != 0 { return diff; }
      assert l[i..][1..] == l[i + 1..] && m[i..][1..] == m[i + 1..];
    }
    return 0;
  }

  method RunCompareVersions(number: string -> Num, left: Option<string>, right: Option<string>) returns (r: int)
    ensures r == CompareVersions(number, left, right)
  {
    var a, b := ParseVersion(number, left), ParseVersion(number, right);
    assert a.core[0..] == a.core && b.core[0..] == b.core;
    for i := 0 to 3
      invariant CompareCore(a.core[i..], b.core[i..]) == CompareCore(a.core, b.core)
    {
      var diff := CompareNum(a.core[i], b.core[i]);
      if diff != 0 { return diff; }
      assert a.core[i..][1..] == a.core[i + 1..] && b.core[i..][1..] == b.core[i + 1..];
    }
    r := RunComparePrerelease(number, a.prerelease, b.prerelease);
  }

  // ----- the order laws -----

  predicate FiniteId(number: string -> Num, s: string) {
    IsNumeric(s) ==> number(s).Fin?
  }

  /** No number of the version overflowed. */
  predicate Finite(number: string -> Num, v: Parsed) {
    && (forall i :: 0 <= i < |v.core| ==> v.core[i].Fin?)
    && (v.prerelease.Some? ==> forall i :: 0 <= i < |v.prerelease.value| ==> FiniteId(number, v.prerelease.value[i]))
  }

  /** Both are runs of digits that overflow: their difference is not a number. */
  predicate BothInfinite(number: string -> Num, a: string, b: string) {
    IsNumeric(a) && IsNumeric(b) && number(a).Inf? && number(b).Inf?
  }

  /** Two infinities meet at the first position that decides. */
  predicate InfiniteCore(a: seq<Num>, b: seq<Num>)
    requires |a| == |b|
  {
    a != [] && ((a[0].Inf? && b[0].Inf?) || (CompareNum(a[0], b[0]) == 0 && InfiniteCore(a[1..], b[1..])))
  }

  predicate InfiniteLists(number: string -> Num, a: seq<string>, b: seq<string>) {
    a != [] && b != []
    && (BothInfinite(number, a[0], b[0])
       || (CompareIdentifier(number, a[0], b[0]) == 0 && InfiniteLists(number, a[1..], b[1..])))
  }

  predicate InfinitiesDecide(number: string -> Num, a: Parsed, b: Parsed)
    requires |a.core| == |b.core|
  {
    || InfiniteCore(a.core, b.core)
    || (CompareCore(a.core, b.core) == 0 && a.prerelease.Some? && b.prerelease.Some?
        && InfiniteLists(number, a.prerelease.value, b.prerelease.value))
  }

  lemma IdentifierReversed(number: string -> Num, a: string, b: string)
    ensures var x, y := CompareIdentifier(number, a, b), CompareIdentifier(number, b, a);
            if BothInfinite(number, a, b) then x == y == -1 else x == -y
  {
    LexTotal(a, b);
  }

  lemma {:induction false} ListsReversed(number: string -> Num, a: seq<string>, b: seq<string>)
    ensures var x, y := CompareLists(number, a, b), CompareLists(number, b, a);
            if InfiniteLists(number, a, b) then x == y == -1 else x == -y
  {
    if a != [] && b != [] {
      IdentifierReversed(number, a[0], b[0]);
      ListsReversed(number, a[1..], b[1..]);
    }
  }

  lemma {:induction false} CoreReversed(a: seq<Num>, b: seq<Num>)
    requires |a| == |b|
    ensures var x, y := CompareCore(a, b), CompareCore(b, a);
            if InfiniteCore(a, b) then x == y == -1 else x == -y
  {
    if a != [] { CoreReversed(a[1..], b[1..]); }
  }

  /** Swapping the arguments swaps the sign, exactly when no two infinities decide. */
  lemma CompareIsAntisymmetric(number: string -> Num, a: Parsed, b: Parsed)
    requires |a.core| == |b.core|
    ensures Compare(number, a, b) == -Compare(number, b, a) <==> !InfinitiesDecide(number, a, b)
  {
    CoreReversed(a.core, b.core);
    if a.prerelease.Some? && b.prerelease.Some? { ListsReversed(number, a.prerelease.value, b.prerelease.value); }
  }

  lemma {:induction false} ListsSame(number: string -> Num, a: seq<string>)
    ensures CompareLists(number, a, a) == 0 <==> forall i :: 0 <= i < |a| ==> FiniteId(number, a[i])
  {
    if a != [] {
      ListsSame(number, a[1..]);
      assert forall i :: 1 <= i < |a| ==> a[i] == a[1..][i - 1];
    }
  }

  lemma {:induction false} CoreSame(a: seq<Num>)
    ensures CompareCore(a, a) == 0 <==> forall i :: 0 <= i < |a| ==> a[i].Fin?
  {
    if a != [] {
      CoreSame(a[1..]);
      assert forall i :: 1 <= i < |a| ==> a[i] == a[1..][i - 1];
    }
  }

  /** A version equals itself exactly when its numbers are finite. */
  lemma EqualsItselfIffFinite(number: string -> Num, v: Parsed)
    ensures Compare(number, v, v) == 0 <==> Finite(number, v)
  {
    CoreSame(v.core);
    if v.prerelease.Some? { ListsSame(number, v.prerelease.value); }
  }

  lemma NumTransitive(a: Num, b: Num, c: Num)
    requires CompareNum(a, b) <= 0 && CompareNum(b, c) <= 0
    ensures CompareNum(a, c) <= 0
    ensures CompareNum(a, c) == 0 ==> CompareNum(a, b) == 0 && CompareNum(b, c) == 0
  {
  }

  lemma IdentifierTransitive(number: string -> Num, a: string, b: string, c: string)
    requires CompareIdentifier(number, a, b) <= 0 && CompareIdentifier(number, b, c) <= 0
    ensures CompareIdentifier(number, a, c) <= 0
    ensures CompareIdentifier(number, a, c) == 0 ==>
            CompareIdentifier(number, a, b) == 0 && CompareIdentifier(number, b, c) == 0
  {
    LexTotal(a, b);
    LexTotal(b, c);
    LexTotal(a, c);
    if LexLess(a, b) && LexLess(b, c) { LexTransitive(a, b, c); }
  }

  lemma {:induction false} ListsTransitive(number: string -> Num, a: seq<string>, b: seq<string>, c: seq<string>)
    requires CompareLists(number, a, b) <= 0 && CompareLists(number, b, c) <= 0
    ensures CompareLists(number, a, c) <= 0
    ensures CompareLists(number, a, c) == 0 ==> CompareLists(number, a, b) == 0 && CompareLists(number, b, c) == 0
  {
    if a != [] && b != [] && c != [] {
      IdentifierTransitive(number, a[0], b[0], c[0]);
      if CompareIdentifier(number, a[0], b[0]) == 0 && CompareIdentifier(number, b[0], c[0]) == 0 {
        ListsTransitive(number, a[1..], b[1..], c[1..]);
      }
    }
  }

  lemma {:induction false} CoreTransitive(a: seq<Num>, b: seq<Num>, c: seq<Num>)
    requires |a| == |b| == |c| && CompareCore(a, b) <= 0 && CompareCore(b, c) <= 0
    ensures CompareCore(a, c) <= 0
    ensures CompareCore(a, c) == 0 ==> CompareCore(a, b) == 0 && CompareCore(b, c) == 0
  {
    if a != [] {
      NumTransitive(a[0], b[0], c[0]);
      if CompareNum(a[0], b[0]) == 0 && CompareNum(b[0], c[0]) == 0 { CoreTransitive(a[1..], b[1..], c[1..]); }
    }
  }

  lemma CompareIsTransitive(number: string -> Num, a: Parsed, b: Parsed, c: Parsed)
    requires |a.core| == |b.core| == |c.core| && Compare(number, a, b) <= 0 && Compare(number, b, c) <= 0
    ensures Compare(number, a, c) <= 0
    ensures Compare(number, a, c) == 0 ==> Compare(number, a, b) == 0 && Compare(number, b, c) == 0
  {
    CoreTransitive(a.core, b.core, c.core);
    if a.prerelease.Some? && b.prerelease.Some? && c.prerelease.Some? && CompareCore(a.core, c.core) == 0 {
      ListsTransitive(number, a.prerelease.value, b.prerelease.value, c.prerelease.value);
    }
  }

  lemma {:induction false} ListsTotal(number: string -> Num, a: seq<string>, b: seq<string>)
    ensures CompareLists(number, a, b) <= 0 || CompareLists(number, b, a) <= 0
    ensures CompareLists(number, a, b) == 0 <==> CompareLists(number, b, a) == 0
  {
    if a != [] && b != [] {
      LexTotal(a[0], b[0]);
      ListsTotal(number, a[1..], b[1..]);
    }
  }

  lemma {:induction false} CoreTotal(a: seq<Num>, b: seq<Num>)
    requires |a| == |b|
    ensures CompareCore(a, b) <= 0 || CompareCore(b, a) <= 0
    ensures CompareCore(a, b) == 0 <==> CompareCore(b, a) == 0
  {
    if a != [] { CoreTotal(a[1..], b[1..]); }
  }

  lemma CompareIsTotal(number: string -> Num, a: Parsed, b: Parsed)
    requires |a.core| == |b.core|
    ensures Compare(number, a, b) <= 0 || Compare(number, b, a) <= 0
  {
    CoreTotal(a.core, b.core);
    if a.prerelease.Some? && b.prerelease.Some? { ListsTotal(number, a.prerelease.value, b.prerelease.value); }
  }

  // ----- the latest of the published versions -----

  /** The published versions, trimmed, without empty ones. */
  function Candidates(published: seq<string>): seq<string> {
    if published == [] then []
    else (if Trim(published[0]) == "" then [] else [Trim(published[0])]) + Candidates(published[1..])
  }

  /** They are exactly the published texts without the white space around them, where something is left. */
  lemma {:induction false} CandidatesAre(published: seq<string>, v: string)
    ensures v in Candidates(published) <==> v != "" && exists k :: 0 <= k < |published| && Trim(published[k]) == v
  {
    if published != [] {
      CandidatesAre(published[1..], v);
      assert forall k :: 1 <= k < |published| ==> published[k] == published[1..][k - 1];
      if v in Candidates(published[1..]) {
        var k :| 0 <= k < |published[1..]| && Trim(published[1..][k]) == v;
        assert published[k + 1] == published[1..][k];
      }
    }
  }

  /** White space around a version does not matter. */
  lemma BlanksAreTrimmed(before: string, s: string, after: string)
    requires (forall k :: 0 <= k < |before| ==> IsSpace(before[k]))
             && (forall k :: 0 <= k < |after| ==> IsSpace(after[k]))
    ensures Trim(before + s + after) == Trim(s)
  {
    var i, j := TrimByHasBounds(IsSpace, s);
    TrimByIs(IsSpace, s, i, j);
    var whole, n := before + s + after, |before|;
    assert forall k :: 0 <= k < n ==> whole[k] == before[k];
    assert forall k :: n <= k < n + |s| ==> whole[k] == s[k - n];
    assert forall k :: n + |s| <= k < |whole| ==> whole[k] == after[k - n - |s|];
    TrimByIs(IsSpace, whole, n + i, n + j);
    assert whole[n + i..n + j] == s[i..j];
  }

  predicate NotAbove(number: string -> Num, a: string, b: string) {
    CompareVersions(number, Some(a), Some(b)) <= 0
  }

  /** What a sort by the comparison may return: the same versions, none before one below it. */
  ghost predicate IsSorted(number: string -> Num, all: seq<string>, sorted: seq<string>) {
    multiset(sorted) == multiset(all) && forall i, j :: 0 <= i < j < |sorted| ==> NotAbove(number, sorted[i], sorted[j])
  }

  lemma NotAboveItself(number: string -> Num, v: string)
    ensures NotAbove(number, v, v)
  {
    CompareIsTotal(number, ParseVersion(number, Some(v)), ParseVersion(number, Some(v)));
  }

  lemma LastIsGreatest(number: string -> Num, sorted: seq<string>, j: nat)
    requires j < |sorted| && forall i, k :: 0 <= i < k < |sorted| ==> NotAbove(number, sorted[i], sorted[k])
    ensures NotAbove(number, sorted[j], sorted[|sorted| - 1])
  {
    if j == |sorted| - 1 { NotAboveItself(number, sorted[j]); }
  }

  /** However they were sorted, the last one is a candidate that no candidate exceeds. */
  lemma LatestIsMaximal(number: string -> Num, published: seq<string>, sorted: seq<string>, v: string)
    requires IsSorted(number, Candidates(published), sorted) && v in Candidates(published)
    ensures sorted != [] && sorted[|sorted| - 1] in Candidates(published)
    ensures NotAbove(number, v, sorted[|sorted| - 1])
  {
    var all := Candidates(published);
    InSameMultiset(sorted, all, v);
    var j :| 0 <= j < |sorted| && sorted[j] == v;
    InSameMultiset(sorted, all, sorted[|sorted| - 1]);
    LastIsGreatest(number, sorted, j);
  }

  function Order(number: string -> Num): (string, string) -> bool {
    (a: string, b: string) => NotAbove(number, a, b)
  }

  lemma OrderIsTotal(number: string -> Num, x: string, y: string)
    ensures NotAbove(number, x, y) || NotAbove(number, y, x)
  {
    CompareIsTotal(number, ParseVersion(number, Some(x)), ParseVersion(number, Some(y)));
  }

  lemma OrderIsTransitive(number: string -> Num, x: string, y: string, z: string)
    requires NotAbove(number, x, y) && NotAbove(number, y, z)
    ensures NotAbove(number, x, z)
  {
    CompareIsTransitive(number, ParseVersion(number, Some(x)), ParseVersion(number, Some(y)),
        ParseVersion(number, Some(z)));
  }

  /** The comparison can be sorted by: any versions have a sorted arrangement. */
  lemma VersionsCanBeSorted(number: string -> Num, all: seq<string>)
    ensures IsSorted(number, all, SortBy(Order(number), all))
  {
    var le := Order(number);
    forall x, y ensures le(x, y) || le(y, x) { OrderIsTotal(number, x, y); }
    forall x, y, z | le(x, y) && le(y, z) ensures le(x, z) { OrderIsTransitive(number, x, y, z); }
    SortBySorts(le, all);
    var sorted := SortBy(le, all);
    forall i, j | 0 <= i < j < |sorted| ensures NotAbove(number, sorted[i], sorted[j]) {
      assert le(sorted[i], sorted[j]);
    }
  }
}
