/**
 Cursor positions across the removal of carriage returns. A text is a sequence of UTF-16 code
 units; cursors are arbitrary integers, as `substring` clamps them.
 */
module Crlf {
  import opened Ordering

  type Text = seq<nat>

  const CR: nat := 13
  const LF: nat := 10
  const SPACE: nat := 32

  // ----- cleaning -----

  predicate PairAt(s: Text, i: int) {
    0 <= i < |s| - 1 && s[i] == CR && s[i + 1] == LF
  }

  predicate EmojiAt(s: Text, i: int) {
    0 <= i < |s| - 1 && 0xD800 <= s[i] <= 0xDBFF && 0xDC00 <= s[i + 1] <= 0xDFFF
  }

  /** `text.replace(/\r\n/g, "\n")` */
  function Clean(s: Text): Text {
    if s == [] then [] else if PairAt(s, 0) then [LF] + Clean(s[2..]) else [s[0]] + Clean(s[1..])
  }

  /** Surrogate pairs replaced by one unit each. */
  function OnePerEmoji(s: Text): Text {
    if s == [] then [] else if EmojiAt(s, 0) then [SPACE] + OnePerEmoji(s[2..]) else [s[0]] + OnePerEmoji(s[1..])
  }

  function Clamp(s: Text, c: int): (m: nat)
    ensures m <= |s|
  {
    if c < 0 then 0 else if c > |s| then |s| else c
  }

  function Left(s: Text, c: int): Text {
    s[..Clamp(s, c)]
  }

  function CleanedCursor(s: Text, c: int): int {
    c - (|Left(s, c)| - |Clean(Left(s, c))|)
  }

  function TransmittedCursor(s: Text, c: int): int {
    CleanedCursor(s, c) - (|Clean(Left(s, c))| - |OnePerEmoji(Clean(Left(s, c)))|)
  }

  method CleanupCrLf(text: Text, cursors: seq<int>) returns (cleaned: Text, moved: seq<int>, transmitted: seq<int>)
    ensures cleaned == Clean(text)
    ensures |moved| == |transmitted| == |cursors|
    ensures forall i :: 0 <= i < |cursors| ==>
            moved[i] == CleanedCursor(text, cursors[i]) && transmitted[i] == TransmittedCursor(text, cursors[i])
  {
    cleaned, moved, transmitted := Clean(text), [], [];
    for i := 0 to |cursors|
      invariant |moved| == |transmitted| == i
      invariant forall j :: 0 <= j < i ==>
                moved[j] == CleanedCursor(text, cursors[j]) && transmitted[j] == TransmittedCursor(text, cursors[j])
    {
      var cursor := cursors[i];
      var left := Left(text, cursor);
      var leftCleaned := Clean(left);
      var moveTo := cursor - (|left| - |leftCleaned|);
      moved := moved + [moveTo];
      transmitted := transmitted + [moveTo - (|leftCleaned| - |OnePerEmoji(leftCleaned)|)];
    }
  }

  // ----- adding back -----

  /** The loop over the text from index `i` on, for one cursor. */
  function AddFrom(text: Text, i: nat, cursor: int): int
    requires i <= |text|
    decreases |text| - i
  {
    if i == |text| then cursor else AddFrom(text, i + 1, if text[i] == CR && cursor > i then cursor + 1 else cursor)
  }

  function AddedBack(text: Text, cursor: int): int {
    AddFrom(text, 0, cursor)
  }

  method AddBackCrLf(text: Text, cursors: seq<int>) returns (r: seq<int>)
    ensures |r| == |cursors| && forall k :: 0 <= k < |cursors| ==> r[k] == AddedBack(text, cursors[k])
  {
    r := cursors;
    for i := 0 to |text|
      invariant |r| == |cursors|
                && forall k :: 0 <= k < |cursors| ==> AddFrom(text, i, r[k]) == AddedBack(text, cursors[k])
    {
      if text[i] == CR {
        ghost var before := r;
        r := seq(|r|, k requires 0 <= k < |r| => if r[k] > i then r[k] + 1 else r[k]);
        assert forall k :: 0 <= k < |cursors| ==> AddFrom(text, i, before[k]) == AddFrom(text, i + 1, r[k]);
      }
    }
  }

  // ----- counting what is taken out -----

  function Pairs(s: Text): (n: nat)
    ensures 2 * n <= |s|
  {
    if |s| < 2 then 0 else if PairAt(s, 0) then 1 + Pairs(s[2..]) else Pairs(s[1..])
  }

  /** Carriage returns that no line feed follows. */
  function Lone(s: Text): nat {
    if s == [] then 0 else (if s[0] == CR && !PairAt(s, 0) then 1 else 0) + Lone(s[1..])
  }

  predicate AllPaired(s: Text) {
    forall i :: 0 <= i < |s| && s[i] == CR ==> PairAt(s, i)
  }

  lemma {:induction false} CleanTakesPairs(s: Text)
    ensures |Clean(s)| == |s| - Pairs(s)
    decreases |s|
  {
    if s != [] {
      if PairAt(s, 0) { CleanTakesPairs(s[2..]); } else { CleanTakesPairs(s[1..]); }
    }
  }

  /** Pairs do not overlap: one further on they can be counted afresh. */
  lemma PairsStep(s: Text)
    requires s != []
    ensures Pairs(s) == (if PairAt(s, 0) then 1 else 0) + Pairs(s[1..])
  {
    if PairAt(s, 0) {
      var t := s[1..];
      assert !PairAt(t, 0);
      if |t| >= 2 { assert t[1..] == s[2..]; }
    }
  }

  lemma {:induction false} LoneZero(s: Text)
    ensures Lone(s) == 0 <==> AllPaired(s)
  {
    if s != [] {
      LoneZero(s[1..]);
      assert forall i :: 1 <= i < |s| ==> (PairAt(s, i) <==> PairAt(s[1..], i - 1));
      if AllPaired(s[1..]) && (s[0] == CR ==> PairAt(s, 0)) {
        forall i | 0 <= i < |s| && s[i] == CR ensures PairAt(s, i) {
          if i > 0 { assert s[1..][i - 1] == CR; }
        }
      }
      if AllPaired(s) {
        forall i | 0 <= i < |s[1..]| && s[1..][i] == CR ensures PairAt(s[1..], i) {
          assert s[i + 1] == CR && PairAt(s, i + 1);
        }
      }
    }
  }

  // ----- the round trip -----

  lemma {:induction false} AddFromStays(text: Text, i: nat, cursor: int)
    requires i <= |text| && cursor <= i
    ensures AddFrom(text, i, cursor) == cursor
    decreases |text| - i
  {
    if i < |text| { AddFromStays(text, i + 1, cursor); }
  }

  lemma {:induction false} AddFromGrows(text: Text, i: nat, cursor: int)
    requires i <= |text|
    ensures AddFrom(text, i, cursor) >= cursor
    decreases |text| - i
  {
    if i < |text| { AddFromGrows(text, i + 1, if text[i] == CR && cursor > i then cursor + 1 else cursor); }
  }

  /** Left of the cursor every carriage return is added back, paired or not. */
  lemma {:induction false} AddFromLeft(text: Text, m: nat, c: int, i: nat, extra: nat)
    requires i <= m <= |text| && m <= c
    ensures AddFrom(text, i, c - Pairs(text[i..m]) + extra) == AddFrom(text, m, c + extra + Lone(text[i..m]))
    decreases m - i
  {
    var s := text[i..m];
    if i < m {
      assert s[1..] == text[i + 1..m];
      PairsStep(s);
      if text[i] == CR && !PairAt(s, 0) {
        AddFromLeft(text, m, c, i + 1, extra + 1);
      } else {
        AddFromLeft(text, m, c, i + 1, extra);
      }
    }
  }

  /** Adding back undoes cleaning for a cursor exactly when every carriage return to its left is paired there. */
  lemma RoundTrip(text: Text, c: int)
    ensures AddedBack(text, CleanedCursor(text, c)) == c <==> AllPaired(Left(text, c))
  {
    var m := Clamp(text, c);
    var left := Left(text, c);
    CleanTakesPairs(left);
    LoneZero(left);
    if c < 0 {
      AddFromStays(text, 0, c);
    } else {
      assert text[0..m] == left;
      AddFromLeft(text, m, c, 0, 0);
      AddFromGrows(text, m, c + Lone(left));
      if Lone(left) == 0 {
        if c <= |text| { AddFromStays(text, m, c); }
      }
    }
  }

  /** On a text with only paired carriage returns that is every cursor not inside a pair. */
  lemma RoundTripBetweenPairs(text: Text, c: int)
    requires AllPaired(text)
    ensures AddedBack(text, CleanedCursor(text, c)) == c <==> !PairAt(text, c - 1)
  {
    RoundTrip(text, c);
    var left := Left(text, c);
    if PairAt(text, c - 1) {
      assert left[c - 1] == CR && !PairAt(left, c - 1);
    } else {
      forall i | 0 <= i < |left| && left[i] == CR ensures PairAt(left, i) {
        assert text[i] == CR && PairAt(text, i);
      }
    }
  }

  /** A lone carriage return left of the cursor is added back although it was never taken out. */
  lemma LoneReturnMovesCursor(text: Text)
    requires text == [CR]
    ensures CleanedCursor(text, 1) == 1 && AddedBack(text, 1) == 2
  {
    assert Left(text, 1) == text;
    CleanTakesPairs(text);
    assert AddFrom(text, 1, 2) == 2;
  }

  // ----- the cursor still points at the same place -----

  lemma {:induction false} CleanConcat(a: Text, b: Text)
    requires !PairAt(a + b, |a| - 1)
    ensures Clean(a + b) == Clean(a) + Clean(b)
    decreases |a|
  {
    if a == [] {
      assert a + b == b;
    } else if PairAt(a, 0) {
      assert (a + b)[2..] == a[2..] + b && PairAt(a + b, 0);
      CleanConcat(a[2..], b);
      Assoc([LF], Clean(a[2..]), Clean(b));
    } else {
      assert (a + b)[1..] == a[1..] + b && !PairAt(a + b, 0);
      CleanConcat(a[1..], b);
      Assoc([a[0]], Clean(a[1..]), Clean(b));
    }
  }

  /** The cleaned cursor cuts the cleaned text where the cursor cut the text, unless it was inside a pair. */
  lemma {:induction false} CleanedCursorCutsAlike(text: Text, c: nat)
    requires c <= |text|
    ensures var moved := CleanedCursor(text, c);
            0 <= moved <= |Clean(text)| && (Clean(text)[..moved] == Clean(text[..c]) <==> !PairAt(text, c - 1))
  {
    var a, b := text[..c], text[c..];
    assert text == a + b;
    CleanTakesPairs(a);
    if !PairAt(text, c - 1) {
      CleanConcat(a, b);
    } else {
      var a' := text[..c - 1];
      assert a == a' + [CR] && text == a' + text[c - 1..];
      assert !PairAt(text, c - 2);
      CleanConcat(a', [CR]);
      CleanConcat(a', text[c - 1..]);
      assert Clean([CR]) == [CR];
      assert Clean(text[c - 1..])[0] == LF;
      var k := |Clean(a')|;
      assert CleanedCursor(text, c) == |Clean(a)| == k + 1;
      assert Clean(text)[k] == LF && Clean(a)[k] == CR;
      assert Clean(text)[..k + 1][k] == LF;
    }
  }

  // ----- the transmitted cursor counts code points -----

  /** Units that start a code point: all but the second half of a surrogate pair. */
  function CodePoints(s: Text): nat {
    if s == [] then 0 else CodePoints(s[..|s| - 1]) + if EmojiAt(s, |s| - 2) then 0 else 1
  }

  lemma {:induction false} CodePointsFromLeft(s: Text, k: nat)
    requires k <= |s| && !EmojiAt(s, k - 1)
    ensures CodePoints(s) == CodePoints(s[..k]) + CodePoints(s[k..])
    decreases |s|
  {
    if k == |s| {
      assert s[..k] == s && s[k..] == [];
    } else {
      var init := s[..|s| - 1];
      assert init[..k] == s[..k] && init[k..] == s[k..][..|s| - k - 1];
      CodePointsFromLeft(init, k);
      if k < |s| - 1 {
        assert EmojiAt(s, |s| - 2) <==> EmojiAt(s[k..], |s| - k - 2);
      } else {
        assert s[k..] == [s[k]];
      }
    }
  }

  lemma {:induction false} OnePerEmojiCounts(s: Text)
    ensures |OnePerEmoji(s)| == CodePoints(s)
    decreases |s|
  {
    if s != [] {
      if EmojiAt(s, 0) {
        OnePerEmojiCounts(s[2..]);
        assert !EmojiAt(s, 1);
        CodePointsFromLeft(s, 2);
        assert s[..2][..1] == [s[0]];
        assert CodePoints([s[0]]) == 1;
      } else {
        OnePerEmojiCounts(s[1..]);
        CodePointsFromLeft(s, 1);
        assert s[..1] == [s[0]];
      }
    }
  }

  /**
   For a cursor in the text, what is transmitted is the number of code points left of it, carriage
   returns of pairs not counted.
   */
  lemma TransmittedCountsCodePoints(text: Text, c: int)
    requires 0 <= c <= |text|
    ensures TransmittedCursor(text, c) == CodePoints(Clean(text[..c]))
  {
    OnePerEmojiCounts(Clean(text[..c]));
  }

  // ----- the same in code points -----

  predicate IsScalar(p: nat) {
    p < 0xD800 || 0xE000 <= p < 0x11_0000
  }

  predicate AllScalar(points: seq<nat>) {
    forall i :: 0 <= i < |points| ==> IsScalar(points[i])
  }

  /** One code point in UTF-16. */
  function Units(p: nat): Text {
    if p < 0x1_0000 then [p] else [0xD800 + (p - 0x1_0000) / 0x400, 0xDC00 + (p - 0x1_0000) % 0x400]
  }

  function Utf16(points: seq<nat>): Text {
    if points == [] then [] else Units(points[0]) + Utf16(points[1..])
  }

  lemma {:induction false} Utf16Concat(a: seq<nat>, b: seq<nat>)
    ensures Utf16(a + b) == Utf16(a) + Utf16(b)
  {
    if a == [] {
      assert a + b == b;
    } else {
      assert (a + b)[1..] == a[1..] + b;
      Utf16Concat(a[1..], b);
    }
  }

  lemma {:induction false} OneUnitPerPoint(points: seq<nat>)
    requires AllScalar(points)
    ensures |OnePerEmoji(Utf16(points))| == |points|
  {
    if points != [] {
      OneUnitPerPoint(points[1..]);
      var s, n := Utf16(points), |Units(points[0])|;
      assert s[n..] == Utf16(points[1..]);
    }
  }

  /** The first unit of a text is the first code point, when either of them is small. */
  lemma FirstUnit(points: seq<nat>)
    requires points != [] && AllScalar(points)
    ensures var s := Utf16(points);
            && s != [] && s[0] == Units(points[0])[0] && s[|Units(points[0])|..] == Utf16(points[1..])
            && (s[0] < 0xD800 || points[0] < 0xD800 ==> s[0] == points[0])
  {
  }

  lemma {:induction false} Utf16Clean(points: seq<nat>)
    requires AllScalar(points)
    ensures Clean(Utf16(points)) == Utf16(Clean(points))
    decreases |points|
  {
    if points != [] {
      var s, rest := Utf16(points), points[1..];
      FirstUnit(points);
      if rest != [] { FirstUnit(rest); }
      if PairAt(points, 0) {
        Utf16Clean(points[2..]);
        assert rest[1..] == points[2..] && s == [CR, LF] + Utf16(points[2..]);
      } else {
        Utf16Clean(rest);
        CleanUnits(points[0], Utf16(rest));
      }
    }
  }

  lemma CleanUnits(p: nat, rest: Text)
    requires IsScalar(p) && !(p == CR && rest != [] && rest[0] == LF)
    ensures Clean(Units(p) + rest) == Units(p) + Clean(rest)
  {
    if p < 0x1_0000 {
      CleanOne(p, rest);
    } else {
      var a, b := Units(p)[0], Units(p)[1];
      CleanOne(a, [b] + rest);
      CleanOne(b, rest);
      assert Units(p) + rest == [a] + ([b] + rest) && Units(p) + Clean(rest) == [a] + ([b] + Clean(rest));
    }
  }

  lemma CleanOne(unit: nat, rest: Text)
    requires !(unit == CR && rest != [] && rest[0] == LF)
    ensures Clean([unit] + rest) == [unit] + Clean(rest)
  {
    assert ([unit] + rest)[1..] == rest;
  }

  /** What is transmitted for a cursor between code points is their number left of it in the cleaned text. */
  lemma TransmittedIsPosition(points: seq<nat>, k: nat)
    requires AllScalar(points) && k <= |points|
    ensures TransmittedCursor(Utf16(points), |Utf16(points[..k])|) == |Clean(points[..k])|
  {
    var left := points[..k];
    assert points == left + points[k..];
    Utf16Concat(left, points[k..]);
    assert Left(Utf16(points), |Utf16(left)|) == Utf16(left);
    Utf16Clean(left);
    CleanStaysScalar(left);
    OneUnitPerPoint(Clean(left));
  }

  lemma {:induction false} CleanStaysScalar(points: seq<nat>)
    requires AllScalar(points)
    ensures AllScalar(Clean(points))
    decreases |points|
  {
    if points != [] {
      if PairAt(points, 0) { CleanStaysScalar(points[2..]); } else { CleanStaysScalar(points[1..]); }
    }
  }
}
