/**
 What lenient parsing makes of a version that is not written out: whatever precedes its first digit
 is skipped, missing numbers are zero, and a text without digits is version zero.
 */
module LenientVersions {
  import opened Outcome
  import opened Ordering
  import opened Versions
  import opened Precedence

  predicate NoDigits(s: string) {
    forall i :: 0 <= i < |s| ==> !IsDigit(s[i])
  }

  lemma {:induction false} FromDigitSkips(junk: string, s: string)
    requires NoDigits(junk) && (s == "" || IsDigit(s[0]))
    ensures FromDigit(junk + s) == s
  {
    if junk == "" {
      assert junk + s == s;
    } else {
      assert (junk + s)[1..] == junk[1..] + s;
      FromDigitSkips(junk[1..], s);
    }
  }

  lemma TrimKeepsEnd(junk: string, s: string) returns (k: nat)
    requires s != "" && IsDigit(s[0]) && !IsSpace(s[|s| - 1])
    ensures k <= |junk| && Trim(junk + s) == junk[k..] + s
  {
    var whole := junk + s;
    var i, j := TrimByHasBounds(IsSpace, whole);
    TrimByIs(IsSpace, whole, i, j);
    assert whole[|junk|] == s[0] && whole[|whole| - 1] == s[|s| - 1];
    assert i <= |junk| && j == |whole|;
    assert whole[i..j] == junk[i..] + s;
    k := i;
  }

  lemma StripKeepsEnd(junk: string, s: string) returns (k: nat)
    requires s != "" && IsDigit(s[0]) && !IsSpace(s[|s| - 1])
    ensures k <= |junk| && Strip(Some(junk + s)) == junk[k..] + s
  {
    k := TrimKeepsEnd(junk, s);
    var trimmed := junk[k..] + s;
    if "v" <= trimmed {
      assert trimmed[0] == 'v';
      assert k == |junk| ==> trimmed == s;
      assert trimmed[1..] == junk[k + 1..] + s;
      k := k + 1;
    }
  }

  /** Nothing before the first digit matters. */
  lemma JunkIsSkipped(number: string -> Num, junk: string, s: string)
    requires NoDigits(junk) && s != "" && IsDigit(s[0]) && !IsSpace(s[|s| - 1])
    ensures ParseVersion(number, Some(junk + s)) == ParseVersion(number, Some(s)) == ParseNumbers(number, s)
  {
    var k := StripKeepsEnd(junk, s);
    FromDigitSkips(junk[k..], s);
    var l := StripKeepsEnd("", s);
    assert "" + s == s;
    FromDigitSkips("", s);
  }

  lemma NoDigitsAreLeft(s: string)
    requires NoDigits(s)
    ensures NoDigits(Strip(Some(s)))
  {
    var i, j := TrimByHasBounds(IsSpace, s);
    TrimByIs(IsSpace, s, i, j);
  }

  /** A text without digits, and no text at all, is version zero. */
  lemma NoDigitsIsZero(number: string -> Num, s: string)
    requires NoDigits(s)
    ensures ParseVersion(number, Some(s)) == ParseVersion(number, None) == Parsed([Fin(0), Fin(0), Fin(0)], None)
  {
    NoDigitsAreLeft(s);
    NoDigitsAreLeft("");
    var left := Strip(Some(s));
    FromDigitSkips(left, "");
    assert left + "" == left;
  }

  /** What may follow the numbers. */
  predicate Ends(s: string) {
    s == "" || (!IsDigit(s[0]) && s[0] != '.')
  }

  lemma MajorReads(number: string -> Num, a: string, rest: string)
    requires IsNumeric(a) && Ends(rest)
    ensures ParseNumbers(number, a + rest)
            == Parsed([number(a), number("0"), number("0")], ParsePrerelease(DashWords(rest)))
  {
    SpanStops(IsDigit, a, rest);
  }

  lemma MinorReads(number: string -> Num, a: string, b: string, rest: string)
    requires IsNumeric(a) && IsNumeric(b) && Ends(rest)
    ensures ParseNumbers(number, a + ("." + (b + rest)))
            == Parsed([number(a), number(b), number("0")], ParsePrerelease(DashWords(rest)))
  {
    SpanStops(IsDigit, a, "." + (b + rest));
    DotNumberReads(b, rest);
  }

  lemma PatchReads(number: string -> Num, a: string, b: string, c: string, rest: string)
    requires IsNumeric(a) && IsNumeric(b) && IsNumeric(c) && Ends(rest)
    ensures ParseNumbers(number, a + ("." + (b + ("." + (c + rest)))))
            == Parsed([number(a), number(b), number(c)], ParsePrerelease(DashWords(rest)))
  {
    SpanStops(IsDigit, a, "." + (b + ("." + (c + rest))));
    DotNumberReads(b, "." + (c + rest));
    DotNumberReads(c, rest);
  }

  /** A version of one or two numbers is read as if zeros had been written for the missing ones. */
  lemma MissingNumbersAreZero(number: string -> Num, a: string, b: string, rest: string)
    requires IsNumeric(a) && IsNumeric(b) && Ends(rest)
    ensures ParseNumbers(number, a + rest) == ParseNumbers(number, a + ("." + ("0" + ("." + ("0" + rest)))))
    ensures ParseNumbers(number, a + ("." + (b + rest)))
            == ParseNumbers(number, a + ("." + (b + ("." + ("0" + rest)))))
  {
    MajorReads(number, a, rest);
    MinorReads(number, a, b, rest);
    PatchReads(number, a, "0", "0", rest);
    PatchReads(number, a, b, "0", rest);
  }
}
