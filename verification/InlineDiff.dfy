/**
 Presenting a line diff inside the editor, and taking it back or accepting it. Additions are
 inserted at lines of the old document, remembered at lines of the merged one; a later deletion by
 line number must recover one of the two texts. A document is its text with "\n" line ends.
 */
module InlineDiff {
  import opened Ordering

  // ----- documents and line positions -----

  function Newlines(s: string): nat {
    if s == "" then 0 else (if s[0] == '\n' then 1 else 0) + Newlines(s[1..])
  }

  /** Where a line starts; a line past the end is clamped to the end of the document. */
  function LineStart(doc: string, line: nat): (o: nat)
    ensures o <= |doc|
  {
    if line == 0 || doc == "" then 0
    else if doc[0] == '\n' then 1 + LineStart(doc[1..], line - 1)
    else 1 + LineStart(doc[1..], line)
  }

  predicate Terminated(s: string) {
    s == "" || s[|s| - 1] == '\n'
  }

  /** What is left after the last line break. */
  function Tail(s: string): (t: string)
    ensures t == "" <==> Terminated(s)
  {
    if s == "" || s[|s| - 1] == '\n' then "" else Tail(s[..|s| - 1]) + [s[|s| - 1]]
  }

  // ----- one edit of the document -----

  /** Texts inserted at line starts of the document as it was; same place, order of issue. */
  type Insertion = (nat, string)

  function TextAt(edits: seq<Insertion>, o: nat): string {
    if edits == [] then ""
    else (if edits[0].0 == o then edits[0].1 else "") + TextAt(edits[1..], o)
  }

  /** The document from offset `o` on, with every insertion put in its place. */
  function Rendered(doc: string, edits: seq<Insertion>, o: nat): string
    requires o <= |doc|
    decreases |doc| - o
  {
    TextAt(edits, o) + if o == |doc| then "" else [doc[o]] + Rendered(doc, edits, o + 1)
  }

  /** Offset `o` falls into one of the deleted whole lines. */
  predicate Deleted(doc: string, lines: seq<nat>, o: nat) {
    exists i :: 0 <= i < |lines| && LineStart(doc, lines[i]) <= o < LineStart(doc, lines[i] + 1)
  }

  /** The document from offset `o` on, with the given whole lines deleted. */
  function Without(doc: string, lines: seq<nat>, o: nat): string
    requires o <= |doc|
    decreases |doc| - o
  {
    if o == |doc| then "" else (if Deleted(doc, lines, o) then "" else [doc[o]]) + Without(doc, lines, o + 1)
  }

  function DeleteLines(doc: string, lines: seq<nat>): string {
    Without(doc, lines, 0)
  }

  // ----- diffs -----

  datatype Kind = Same | Removed | Added
  datatype Part = Part(kind: Kind, value: string)

  function OldOf(parts: seq<Part>): string {
    if parts == [] then "" else (if parts[0].kind.Added? then "" else parts[0].value) + OldOf(parts[1..])
  }

  function NewOf(parts: seq<Part>): string {
    if parts == [] then "" else (if parts[0].kind.Removed? then "" else parts[0].value) + NewOf(parts[1..])
  }

  function MergedOf(parts: seq<Part>): string {
    if parts == [] then "" else parts[0].value + MergedOf(parts[1..])
  }

  /** All the diff library promises: the parts spell both texts, in whole lines but for a last addition. */
  ghost predicate IsLineDiff(parts: seq<Part>, old_: string, new_: string) {
    && OldOf(parts) == old_ && NewOf(parts) == new_
    && WholeLines(parts)
  }

  /** The text the diff is computed from: the document, with a missing final line break added. */
  function WholeDoc(doc: string): string {
    if doc == "" || doc[|doc| - 1] != '\n' then doc + "\n" else doc
  }

  // ----- what the loop over the parts produces -----

  function Lines(from: nat, count: nat): (r: seq<nat>)
    ensures |r| == count && forall i :: 0 <= i < count ==> r[i] == from + i
  {
    seq(count, i => from + i)
  }

  /** The merged lines that hold parts of one kind, counting from line `n`. */
  function LinesOf(kind: Kind, parts: seq<Part>, n: nat): seq<nat> {
    if parts == [] then []
    else
      var count := Newlines(parts[0].value);
      (if parts[0].kind == kind then Lines(n, count) else []) + LinesOf(kind, parts[1..], n + count)
  }

  /** The insertions, each at the line of the old document reached so far. */
  function InsertionsOf(doc: string, parts: seq<Part>, n: nat): seq<Insertion> {
    if parts == [] then []
    else if parts[0].kind.Added? then [(LineStart(doc, n), parts[0].value)] + InsertionsOf(doc, parts[1..], n)
    else InsertionsOf(doc, parts[1..], n + Newlines(parts[0].value))
  }

  function AllInsertions(doc: string, parts: seq<Part>): seq<Insertion> {
    (if WholeDoc(doc) != doc then [(|doc|, "\n")] else []) + InsertionsOf(doc, parts, 0)
  }

  // ----- counting lines -----

  lemma {:induction false} NewlinesConcat(a: string, b: string)
    ensures Newlines(a + b) == Newlines(a) + Newlines(b)
  {
    if a == "" {
      assert a + b == b;
    } else {
      assert (a + b)[1..] == a[1..] + b;
      NewlinesConcat(a[1..], b);
    }
  }

  /** After whole lines the next line starts right there. */
  lemma {:induction false} LineStartAfter(a: string, b: string)
    requires Terminated(a)
    ensures LineStart(a + b, Newlines(a)) == |a|
  {
    if a == "" {
      assert a + b == b;
    } else {
      assert (a + b)[1..] == a[1..] + b;
      assert Terminated(a[1..]);
      LineStartAfter(a[1..], b);
      HasNewline(a);
    }
  }

  lemma {:induction false} HasNewline(a: string)
    requires a != "" && Terminated(a)
    ensures Newlines(a) > 0
  {
    if |a| > 1 { HasNewline(a[1..]); }
  }

  /** The lines cut the document into consecutive ranges: offset `o` is on line `Newlines(doc[..o])`. */
  lemma {:induction false} LineOfOffset(doc: string, o: nat, line: nat)
    requires o < |doc|
    ensures LineStart(doc, line) <= o < LineStart(doc, line + 1) <==> Newlines(doc[..o]) == line
  {
    if o > 0 {
      assert doc[..o][1..] == doc[1..][..o - 1];
      if doc[0] == '\n' {
        if line == 0 {
        } else {
          LineOfOffset(doc[1..], o - 1, line - 1);
        }
      } else {
        LineOfOffset(doc[1..], o - 1, line);
      }
    }
  }

  // ----- deleting whole lines -----

  /** The text `s`, whose first character is on line `n`, without the given lines. */
  function Keep(s: string, n: nat, lines: seq<nat>): string {
    if s == "" then ""
    else (if n in lines then "" else [s[0]]) + Keep(s[1..], if s[0] == '\n' then n + 1 else n, lines)
  }

  lemma DeletedIsOnLine(doc: string, lines: seq<nat>, o: nat)
    requires o < |doc|
    ensures Deleted(doc, lines, o) <==> Newlines(doc[..o]) in lines
  {
    var n := Newlines(doc[..o]);
    if i :| 0 <= i < |lines| && LineStart(doc, lines[i]) <= o < LineStart(doc, lines[i] + 1) {
      LineOfOffset(doc, o, lines[i]);
    }
    if n in lines {
      var i :| 0 <= i < |lines| && lines[i] == n;
      LineOfOffset(doc, o, lines[i]);
    }
  }

  lemma NextOffset(doc: string, o: nat)
    requires o < |doc|
    ensures doc[o..][1..] == doc[o + 1..] && doc[o..][0] == doc[o]
    ensures Newlines(doc[..o + 1]) == if doc[o] == '\n' then Newlines(doc[..o]) + 1 else Newlines(doc[..o])
  {
    assert doc[..o + 1] == doc[..o] + [doc[o]];
    NewlinesConcat(doc[..o], [doc[o]]);
  }

  lemma {:induction false} WithoutIsKeep(doc: string, lines: seq<nat>, o: nat)
    requires o <= |doc|
    ensures Without(doc, lines, o) == Keep(doc[o..], Newlines(doc[..o]), lines)
    decreases |doc| - o
  {
    if o < |doc| {
      DeletedIsOnLine(doc, lines, o);
      NextOffset(doc, o);
      WithoutIsKeep(doc, lines, o + 1);
    }
  }

  lemma DropConcat(a: string, b: string)
    requires a != ""
    ensures (a + b)[0] == a[0] && (a + b)[1..] == a[1..] + b
  {
  }

  lemma {:induction false} KeepConcat(a: string, b: string, n: nat, lines: seq<nat>)
    ensures Keep(a + b, n, lines) == Keep(a, n, lines) + Keep(b, n + Newlines(a), lines)
  {
    if a == "" {
      assert a + b == b;
    } else {
      var m := if a[0] == '\n' then n + 1 else n;
      var kept := if n in lines then "" else [a[0]];
      DropConcat(a, b);
      KeepConcat(a[1..], b, m, lines);
      Assoc(kept, Keep(a[1..], m, lines), Keep(b, n + Newlines(a), lines));
    }
  }

  lemma {:induction false} KeepUntouched(s: string, n: nat, lines: seq<nat>)
    requires Terminated(s) && forall i :: n <= i < n + Newlines(s) ==> i !in lines
    ensures Keep(s, n, lines) == s
  {
    if s != "" {
      HasNewline(s);
      assert Terminated(s[1..]);
      KeepUntouched(s[1..], if s[0] == '\n' then n + 1 else n, lines);
      assert s == [s[0]] + s[1..];
    }
  }

  /** Deleting all the lines a span has line breaks for leaves just what follows its last line break. */
  lemma {:induction false} KeepRest(s: string, n: nat, lines: seq<nat>)
    requires forall i :: n <= i <= n + Newlines(s) ==> (i in lines <==> i < n + Newlines(s))
    ensures Keep(s, n, lines) == Tail(s)
  {
    if s != "" {
      KeepRest(s[1..], if s[0] == '\n' then n + 1 else n, lines);
      TailStep(s);
    }
  }

  /** Without a line break a text is its own tail; with one, its first character is not in the tail. */
  lemma {:induction false} TailStep(s: string)
    requires s != ""
    ensures Tail(s) == if Newlines(s) == 0 then [s[0]] + Tail(s[1..]) else Tail(s[1..])
  {
    if |s| == 1 {
      assert s[1..] == "";
    } else {
      var init := s[..|s| - 1];
      assert s == init + [s[|s| - 1]] && init[1..] == s[1..][..|s| - 2];
      NewlinesConcat(init, [s[|s| - 1]]);
      TailStep(init);
    }
  }

  // ----- the two recoveries -----

  lemma {:induction false} LinesAreAhead(kind: Kind, parts: seq<Part>, n: nat, line: nat)
    requires line in LinesOf(kind, parts, n)
    ensures n <= line
  {
    if parts != [] {
      var count := Newlines(parts[0].value);
      if line in LinesOf(kind, parts[1..], n + count) { LinesAreAhead(kind, parts[1..], n + count, line); }
    }
  }

  /** Every part consists of whole lines, but for an addition at the very end. */
  predicate WholeLines(parts: seq<Part>) {
    parts == [] || ((Terminated(parts[0].value) || (parts[0].kind.Added? && |parts| == 1)) && WholeLines(parts[1..]))
  }

  /** The unterminated end of a last addition. */
  function Stray(parts: seq<Part>): string {
    if parts == [] then "" else if parts[|parts| - 1].kind.Added? then Tail(parts[|parts| - 1].value) else ""
  }

  function StrayOf(kind: Kind, parts: seq<Part>): string {
    if kind.Added? then Stray(parts) else ""
  }

  /** The text of the parts that are not of the given kind. */
  function Others(kind: Kind, parts: seq<Part>): string {
    if parts == [] then "" else (if parts[0].kind == kind then "" else parts[0].value) + Others(kind, parts[1..])
  }

  lemma {:induction false} OthersAreTexts(parts: seq<Part>)
    ensures Others(Added, parts) == OldOf(parts) && Others(Removed, parts) == NewOf(parts)
  {
    if parts != [] { OthersAreTexts(parts[1..]); }
  }

  lemma LinesSplit(kind: Kind, parts: seq<Part>, n: nat)
    requires parts != []
    ensures var cut := n + Newlines(parts[0].value);
            && (forall i :: n <= i < cut ==> (i in LinesOf(kind, parts, n) <==> parts[0].kind == kind))
            && (forall i :: cut <= i ==> (i in LinesOf(kind, parts, n) <==> i in LinesOf(kind, parts[1..], cut)))
  {
    var count := Newlines(parts[0].value);
    var lines, later := LinesOf(kind, parts, n), LinesOf(kind, parts[1..], n + count);
    var own := if parts[0].kind == kind then Lines(n, count) else [];
    assert lines == own + later;
    forall i | i in later ensures n + count <= i { LinesAreAhead(kind, parts[1..], n + count, i); }
    forall i | n <= i < n + count ensures i in own <==> parts[0].kind == kind {
      if parts[0].kind == kind { assert Lines(n, count)[i - n] == i; }
    }
  }

  /** What a deletion leaves of the parts, one after the other. */
  function KeptParts(parts: seq<Part>, n: nat, lines: seq<nat>): string {
    if parts == [] then ""
    else Keep(parts[0].value, n, lines) + KeptParts(parts[1..], n + Newlines(parts[0].value), lines)
  }

  lemma {:induction false} KeepMerged(parts: seq<Part>, n: nat, lines: seq<nat>)
    ensures Keep(MergedOf(parts), n, lines) == KeptParts(parts, n, lines)
  {
    if parts != [] {
      KeepConcat(parts[0].value, MergedOf(parts[1..]), n, lines);
      KeepMerged(parts[1..], n + Newlines(parts[0].value), lines);
    }
  }

  predicate IsKept(kind: Kind, parts: seq<Part>, kept: string)
    requires parts != []
  {
    kept == (if parts[0].kind == kind then "" else parts[0].value) + if |parts| > 1 then "" else StrayOf(kind, parts)
  }

  lemma JoinKept(kind: Kind, parts: seq<Part>, kept: string)
    requires parts != [] && IsKept(kind, parts, kept)
    ensures kept + (Others(kind, parts[1..]) + StrayOf(kind, parts[1..])) == Others(kind, parts) + StrayOf(kind, parts)
  {
    var own := if parts[0].kind == kind then "" else parts[0].value;
    if |parts| == 1 {
      assert Others(kind, parts) == own;
    } else {
      assert own + "" == own;
      Assoc(own, Others(kind, parts[1..]), StrayOf(kind, parts[1..]));
    }
  }

  /** From line `n` on, the lines are those of the parts of one kind. */
  ghost predicate LinesAgree(kind: Kind, parts: seq<Part>, n: nat, lines: seq<nat>) {
    forall i :: n <= i ==> (i in lines <==> i in LinesOf(kind, parts, n))
  }

  lemma AgreeSplits(kind: Kind, parts: seq<Part>, n: nat, lines: seq<nat>)
    requires parts != [] && LinesAgree(kind, parts, n, lines)
    ensures var cut := n + Newlines(parts[0].value);
            && LinesAgree(kind, parts[1..], cut, lines)
            && (forall i :: n <= i < cut ==> (i in lines <==> parts[0].kind == kind))
            && (|parts| == 1 ==> cut !in lines)
  {
    LinesSplit(kind, parts, n);
  }

  lemma {:induction false} KeptIs(kind: Kind, parts: seq<Part>, n: nat, lines: seq<nat>)
    requires WholeLines(parts) && !kind.Same? && LinesAgree(kind, parts, n, lines)
    ensures KeptParts(parts, n, lines) == Others(kind, parts) + StrayOf(kind, parts)
  {
    if parts != [] {
      AgreeSplits(kind, parts, n, lines);
      KeptIs(kind, parts[1..], n + Newlines(parts[0].value), lines);
      KeptOfFirst(kind, parts, n, lines);
      JoinKept(kind, parts, Keep(parts[0].value, n, lines));
    }
  }

  /** What deletion leaves of the first part. */
  lemma KeptOfFirst(kind: Kind, parts: seq<Part>, n: nat, lines: seq<nat>)
    requires parts != [] && WholeLines(parts) && !kind.Same?
    requires forall i :: n <= i < n + Newlines(parts[0].value) ==> (i in lines <==> parts[0].kind == kind)
    requires |parts| == 1 ==> n + Newlines(parts[0].value) !in lines
    ensures IsKept(kind, parts, Keep(parts[0].value, n, lines))
  {
    var s := parts[0].value;
    if Terminated(s) {
      if parts[0].kind == kind { KeepGone(s, n, lines); } else { KeepUntouched(s, n, lines); }
    } else if kind.Added? {
      KeepRest(s, n, lines);
    } else {
      KeepWhole(s, n, lines);
    }
  }

  /** Deleting the remembered lines of one kind removes exactly the parts of that kind. */
  lemma DeletingKind(kind: Kind, parts: seq<Part>, n: nat)
    requires WholeLines(parts) && !kind.Same?
    ensures Keep(MergedOf(parts), n, LinesOf(kind, parts, n)) == Others(kind, parts) + StrayOf(kind, parts)
  {
    KeepMerged(parts, n, LinesOf(kind, parts, n));
    KeptIs(kind, parts, n, LinesOf(kind, parts, n));
  }

  lemma {:induction false} KeepGone(s: string, n: nat, lines: seq<nat>)
    requires Terminated(s) && forall i :: n <= i < n + Newlines(s) ==> i in lines
    ensures Keep(s, n, lines) == ""
  {
    if s != "" {
      HasNewline(s);
      assert Terminated(s[1..]);
      KeepGone(s[1..], if s[0] == '\n' then n + 1 else n, lines);
    }
  }

  lemma {:induction false} KeepWhole(s: string, n: nat, lines: seq<nat>)
    requires forall i :: n <= i <= n + Newlines(s) ==> i !in lines
    ensures Keep(s, n, lines) == s
  {
    if s != "" {
      KeepWhole(s[1..], if s[0] == '\n' then n + 1 else n, lines);
      assert s == [s[0]] + s[1..];
    }
  }

  /** Accepting: the merged text without the remembered deletions is the new text. */
  lemma AcceptRecoversNew(parts: seq<Part>, old_: string, new_: string)
    requires IsLineDiff(parts, old_, new_)
    ensures DeleteLines(MergedOf(parts), LinesOf(Removed, parts, 0)) == new_
  {
    WithoutIsKeep(MergedOf(parts), LinesOf(Removed, parts, 0), 0);
    assert MergedOf(parts)[0..] == MergedOf(parts) && MergedOf(parts)[..0] == "";
    DeletingKind(Removed, parts, 0);
    OthersAreTexts(parts);
    assert new_ + "" == new_;
  }

  /**
   Rejecting: the merged text without the remembered additions is the old text, exactly when the new
   text ends a line.
   */
  lemma RollbackRecoversOld(parts: seq<Part>, old_: string, new_: string)
    requires IsLineDiff(parts, old_, new_)
    ensures DeleteLines(MergedOf(parts), LinesOf(Added, parts, 0)) == old_ + Stray(parts)
    ensures DeleteLines(MergedOf(parts), LinesOf(Added, parts, 0)) == old_ <==> Terminated(new_)
  {
    var merged := MergedOf(parts);
    WithoutIsKeep(merged, LinesOf(Added, parts, 0), 0);
    assert merged[0..] == merged && merged[..0] == "";
    DeletingKind(Added, parts, 0);
    OthersAreTexts(parts);
    StrayIsUnterminated(parts);
    if Stray(parts) != "" {
      assert |old_ + Stray(parts)| > |old_|;
    } else {
      assert old_ + "" == old_;
    }
  }

  lemma {:induction false} StrayIsUnterminated(parts: seq<Part>)
    requires WholeLines(parts)
    ensures Stray(parts) == "" <==> Terminated(NewOf(parts))
  {
    if parts != [] {
      var rest := parts[1..];
      StrayIsUnterminated(rest);
      if rest != [] {
        var head := if parts[0].kind.Removed? then "" else parts[0].value;
        TerminatedConcat(head, NewOf(rest));
        assert Stray(rest) == Stray(parts);
      } else {
        assert NewOf(parts) == (if parts[0].kind.Removed? then "" else parts[0].value) + "";
        assert parts[0].value + "" == parts[0].value;
      }
    }
  }

  lemma TerminatedConcat(a: string, b: string)
    requires Terminated(a)
    ensures Terminated(a + b) <==> Terminated(b)
  {
    if b == "" { assert a + b == a; }
  }

  /** With nothing remembered, a rollback deletes nothing. */
  lemma DeletingNothing(doc: string)
    ensures DeleteLines(doc, []) == doc
  {
    WithoutIsKeep(doc, [], 0);
    assert doc[0..] == doc && doc[..0] == "";
    KeepWhole(doc, 0, []);
  }

  // ----- the merged document -----

  /** The insertions at text offsets of the old text, counting from offset `o`. */
  function AtOffsets(parts: seq<Part>, o: nat): seq<Insertion> {
    if parts == [] then []
    else if parts[0].kind.Added? then [(o, parts[0].value)] + AtOffsets(parts[1..], o)
    else AtOffsets(parts[1..], o + |parts[0].value|)
  }

  lemma {:induction false} OffsetsAreAhead(parts: seq<Part>, o: nat, x: nat)
    requires x < o
    ensures TextAt(AtOffsets(parts, o), x) == ""
  {
    if parts != [] {
      if parts[0].kind.Added? {
        OffsetsAreAhead(parts[1..], o, x);
      } else {
        OffsetsAreAhead(parts[1..], o + |parts[0].value|, x);
      }
    }
  }

  /** Insertions that agree from `o` on render the same from `o` on. */
  lemma {:induction false} RenderedDependsOn(doc: string, e1: seq<Insertion>, e2: seq<Insertion>, o: nat)
    requires o <= |doc| && forall x :: o <= x <= |doc| ==> TextAt(e1, x) == TextAt(e2, x)
    ensures Rendered(doc, e1, o) == Rendered(doc, e2, o)
    decreases |doc| - o
  {
    if o < |doc| { RenderedDependsOn(doc, e1, e2, o + 1); }
  }

  lemma {:induction false} RenderedSkips(doc: string, edits: seq<Insertion>, o: nat, o': nat)
    requires o <= o' <= |doc| && forall x :: o <= x < o' ==> TextAt(edits, x) == ""
    ensures Rendered(doc, edits, o) == doc[o..o'] + Rendered(doc, edits, o')
    decreases o' - o
  {
    if o < o' {
      RenderedSkips(doc, edits, o + 1, o');
      assert doc[o..o'] == [doc[o]] + doc[o + 1..o'];
    }
  }

  lemma OneMoreInsertion(doc: string, value: string, later: seq<Insertion>, o: nat)
    requires o <= |doc|
    ensures Rendered(doc, [(o, value)] + later, o) == value + Rendered(doc, later, o)
  {
    var edits: seq<Insertion> := [(o, value)] + later;
    assert edits[1..] == later;
    if o < |doc| { RenderedDependsOn(doc, edits, later, o + 1); }
  }

  /** Inserting the additions into the old text spells out all the parts. */
  lemma {:induction false} RenderingParts(doc: string, parts: seq<Part>, o: nat)
    requires o <= |doc| && doc[o..] == OldOf(parts)
    ensures Rendered(doc, AtOffsets(parts, o), o) == MergedOf(parts)
    decreases |parts|
  {
    var edits := AtOffsets(parts, o);
    if parts == [] {
      RenderedSkips(doc, edits, o, |doc|);
    } else {
      var value, rest := parts[0].value, parts[1..];
      if parts[0].kind.Added? {
        RenderingParts(doc, rest, o);
        OneMoreInsertion(doc, value, AtOffsets(rest, o), o);
      } else {
        var o' := o + |value|;
        assert doc[o..] == value + OldOf(rest);
        assert doc[o..o'] == value && doc[o'..] == OldOf(rest);
        forall x | o <= x < o' ensures TextAt(edits, x) == "" { OffsetsAreAhead(rest, o', x); }
        RenderedSkips(doc, edits, o, o');
        RenderingParts(doc, rest, o');
      }
    }
  }

  /** How far a text has been covered: up to a line start, with the given parts still to come. */
  ghost predicate Covered(whole: string, parts: seq<Part>, o: nat) {
    o <= |whole| && Terminated(whole[..o]) && whole[o..] == OldOf(parts) && WholeLines(parts)
  }

  lemma Advance(whole: string, parts: seq<Part>, o: nat)
    requires parts != [] && Covered(whole, parts, o)
    ensures var o' := if parts[0].kind.Added? then o else o + |parts[0].value|;
              && Covered(whole, parts[1..], o')
              && Newlines(whole[..o']) == Newlines(whole[..o])
                 + if parts[0].kind.Added? then 0 else Newlines(parts[0].value)
  {
    if !parts[0].kind.Added? {
      var value, rest := parts[0].value, parts[1..];
      var o' := o + |value|;
      assert whole[o..] == value + OldOf(rest);
      assert whole[..o'] == whole[..o] + value && whole[o'..] == OldOf(rest);
      NewlinesConcat(whole[..o], value);
      TerminatedConcat(whole[..o], value);
    }
  }

  /** The insertions at lines of the old document are those at offsets, clamped to its end. */
  lemma {:induction false} InsertionsAtOffsets(doc: string, parts: seq<Part>, o: nat, x: nat)
    requires Covered(WholeDoc(doc), parts, o) && x <= |doc|
    ensures TextAt(InsertionsOf(doc, parts, Newlines(WholeDoc(doc)[..o])), x)
            == TextAt(AtOffsets(parts, o), x) + Beyond(doc, parts, o, x)
    decreases |parts|
  {
    if parts != [] {
      Advance(WholeDoc(doc), parts, o);
      if parts[0].kind.Added? {
        InsertionsAtOffsets(doc, parts[1..], o, x);
        AddedAtOffset(doc, parts, o, x);
      } else {
        InsertionsAtOffsets(doc, parts[1..], o + |parts[0].value|, x);
      }
    }
  }

  lemma TextAtCons(first: Insertion, rest: seq<Insertion>, x: nat)
    ensures TextAt([first] + rest, x) == if first.0 == x then first.1 + TextAt(rest, x) else TextAt(rest, x)
  {
    assert ([first] + rest)[1..] == rest;
  }

  lemma AddedAtOffset(doc: string, parts: seq<Part>, o: nat, x: nat)
    requires parts != [] && parts[0].kind.Added? && x <= |doc|
    requires o <= |WholeDoc(doc)| && Terminated(WholeDoc(doc)[..o])
    requires var n, rest := Newlines(WholeDoc(doc)[..o]), parts[1..];
             TextAt(InsertionsOf(doc, rest, n), x) == TextAt(AtOffsets(rest, o), x) + Beyond(doc, rest, o, x)
    ensures TextAt(InsertionsOf(doc, parts, Newlines(WholeDoc(doc)[..o])), x)
            == TextAt(AtOffsets(parts, o), x) + Beyond(doc, parts, o, x)
  {
    var n, value, rest := Newlines(WholeDoc(doc)[..o]), parts[0].value, parts[1..];
    LineStartOf(doc, o);
    var at := LineStart(doc, n);
    if o > |doc| { OffsetsAreAhead(rest, o, x); }
    TextAtCons((at, value), InsertionsOf(doc, rest, n), x);
    TextAtCons((o, value), AtOffsets(rest, o), x);
    TextAtCons((o, value), AtOffsets(rest, o), x + 1);
    Assoc(value, TextAt(AtOffsets(rest, o), x), Beyond(doc, rest, o, x));
  }

  /** What was meant for after the added final line break lands at the end of the old document. */
  function Beyond(doc: string, parts: seq<Part>, o: nat, x: nat): string {
    if x == |doc| && WholeDoc(doc) != doc then TextAt(AtOffsets(parts, o), x + 1) else ""
  }

  lemma LineStartOf(doc: string, o: nat)
    requires o <= |WholeDoc(doc)| && Terminated(WholeDoc(doc)[..o])
    ensures LineStart(doc, Newlines(WholeDoc(doc)[..o])) == if o <= |doc| then o else |doc|
  {
    var whole := WholeDoc(doc);
    if o <= |doc| {
      assert whole[..o] == doc[..o] && doc == doc[..o] + doc[o..];
      LineStartAfter(doc[..o], doc[o..]);
    } else {
      assert whole[..o] == doc + "\n";
      NewlinesConcat(doc, "\n");
      LinesPastTheEnd(doc, Newlines(doc) + 1);
    }
  }

  lemma {:induction false} LinesPastTheEnd(doc: string, line: nat)
    requires line > Newlines(doc)
    ensures LineStart(doc, line) == |doc|
  {
    if doc != "" { LinesPastTheEnd(doc[1..], if doc[0] == '\n' then line - 1 else line); }
  }

  /** The part of a rendering before offset `end`. */
  function Upto(doc: string, edits: seq<Insertion>, o: nat, end: nat): string
    requires o <= end <= |doc|
    decreases end - o
  {
    if o == end then "" else TextAt(edits, o) + [doc[o]] + Upto(doc, edits, o + 1, end)
  }

  lemma {:induction false} RenderedSplits(doc: string, edits: seq<Insertion>, o: nat, end: nat)
    requires o <= end <= |doc|
    ensures Rendered(doc, edits, o) == Upto(doc, edits, o, end) + Rendered(doc, edits, end)
    decreases end - o
  {
    if o < end { RenderedSplits(doc, edits, o + 1, end); }
  }

  lemma {:induction false} UptoAgrees(d1: string, e1: seq<Insertion>, d2: string, e2: seq<Insertion>, o: nat, end: nat)
    requires o <= end <= |d1| && end <= |d2|
    requires forall x :: o <= x < end ==> d1[x] == d2[x] && TextAt(e1, x) == TextAt(e2, x)
    ensures Upto(d1, e1, o, end) == Upto(d2, e2, o, end)
    decreases end - o
  {
    if o < end { UptoAgrees(d1, e1, d2, e2, o + 1, end); }
  }

  /** The additions that come before any line of the old text. */
  function Leading(parts: seq<Part>): string {
    TextAt(AtOffsets(parts, 0), 0)
  }

  predicate OnlyBreaks(s: string) {
    forall i :: 0 <= i < |s| ==> s[i] == '\n'
  }

  /** An empty document gets its line break first, so additions before it must not be told apart from it. */
  predicate Faithful(doc: string, parts: seq<Part>) {
    doc == "" ==> OnlyBreaks(Leading(parts))
  }

  lemma {:induction false} BreakCommutes(s: string)
    ensures s + "\n" == "\n" + s <==> OnlyBreaks(s)
  {
    if s != "" {
      BreakCommutes(s[1..]);
      assert s == [s[0]] + s[1..];
      if s + "\n" == "\n" + s {
        assert (s + "\n")[0] == '\n';
        assert s[1..] + "\n" == (s + "\n")[1..] == s == "\n" + s[1..];
        assert OnlyBreaks(s[1..]);
      }
      if OnlyBreaks(s) {
        assert s + "\n" == "\n" + (s[1..] + "\n");
      }
    }
  }

  /** Nothing is inserted inside a line. */
  lemma {:induction false} NothingInsideLines(parts: seq<Part>, whole: string, o: nat, x: nat)
    requires Covered(whole, parts, o) && 0 < x <= |whole| && whole[x - 1] != '\n'
    ensures TextAt(AtOffsets(parts, o), x) == ""
    decreases |parts|
  {
    if parts != [] {
      Advance(whole, parts, o);
      if parts[0].kind.Added? {
        assert o != x;
        NothingInsideLines(parts[1..], whole, o, x);
      } else {
        NothingInsideLines(parts[1..], whole, o + |parts[0].value|, x);
      }
    }
  }

  function Presented(doc: string, parts: seq<Part>): string {
    Rendered(doc, AllInsertions(doc, parts), 0)
  }

  /** The edited document spells out all the parts of the diff, exactly for the faithful presentations. */
  lemma PresentedIsMerged(doc: string, parts: seq<Part>, new_: string)
    requires IsLineDiff(parts, WholeDoc(doc), new_)
    ensures Presented(doc, parts) == MergedOf(parts) <==> Faithful(doc, parts)
  {
    var whole := WholeDoc(doc);
    assert whole[0..] == whole && whole[..0] == "";
    RenderingParts(whole, parts, 0);
    if whole == doc {
      assert AllInsertions(doc, parts) == InsertionsOf(doc, parts, 0);
      forall x | 0 <= x <= |doc| ensures TextAt(AllInsertions(doc, parts), x) == TextAt(AtOffsets(parts, 0), x) {
        InsertionsAtOffsets(doc, parts, 0, x);
      }
      RenderedDependsOn(doc, AllInsertions(doc, parts), AtOffsets(parts, 0), 0);
    } else {
      WithAddedBreak(doc, parts);
    }
  }

  lemma WithAddedBreak(doc: string, parts: seq<Part>)
    requires WholeDoc(doc) == OldOf(parts) != doc && WholeLines(parts)
    ensures Presented(doc, parts) == Rendered(WholeDoc(doc), AtOffsets(parts, 0), 0) <==> Faithful(doc, parts)
  {
    var whole, meant, edits, end := WholeDoc(doc), AtOffsets(parts, 0), AllInsertions(doc, parts), |doc|;
    assert whole[0..] == whole && whole[..0] == "";
    SameBeginning(doc, parts);
    RenderedSplits(doc, edits, 0, end);
    RenderedSplits(whole, meant, 0, end);
    Endings(doc, parts);
    SameEnding(Upto(doc, edits, 0, end), TextAt(meant, end), TextAt(meant, end + 1));
    if doc != "" { NothingInsideLines(parts, whole, 0, end); }
  }

  lemma SameBeginning(doc: string, parts: seq<Part>)
    requires WholeDoc(doc) == OldOf(parts) != doc && WholeLines(parts)
    ensures Upto(doc, AllInsertions(doc, parts), 0, |doc|) == Upto(WholeDoc(doc), AtOffsets(parts, 0), 0, |doc|)
  {
    var whole, meant, edits := WholeDoc(doc), AtOffsets(parts, 0), AllInsertions(doc, parts);
    assert whole[0..] == whole && whole[..0] == "";
    forall x | 0 <= x < |doc| ensures doc[x] == whole[x] && TextAt(edits, x) == TextAt(meant, x) {
      TextAtCons((|doc|, "\n"), InsertionsOf(doc, parts, 0), x);
      InsertionsAtOffsets(doc, parts, 0, x);
    }
    UptoAgrees(doc, edits, whole, meant, 0, |doc|);
  }

  lemma Endings(doc: string, parts: seq<Part>)
    requires WholeDoc(doc) == OldOf(parts) != doc && WholeLines(parts)
    ensures var first, second := TextAt(AtOffsets(parts, 0), |doc|), TextAt(AtOffsets(parts, 0), |doc| + 1);
              && Rendered(doc, AllInsertions(doc, parts), |doc|) == "\n" + (first + second)
              && Rendered(WholeDoc(doc), AtOffsets(parts, 0), |doc|) == first + ("\n" + second)
  {
    var whole, end := WholeDoc(doc), |doc|;
    assert whole[0..] == whole && whole[..0] == "";
    TextAtCons((end, "\n"), InsertionsOf(doc, parts, 0), end);
    InsertionsAtOffsets(doc, parts, 0, end);
    assert [whole[end]] == "\n";
  }

  lemma SameEnding(before: string, first: string, second: string)
    ensures before + ("\n" + (first + second)) == before + (first + ("\n" + second)) <==> OnlyBreaks(first)
  {
    BreakCommutes(first);
    var a, b := before + ("\n" + (first + second)), before + (first + ("\n" + second));
    var n, m := |before|, |before| + |first| + 1;
    assert a[n..m] == "\n" + first && b[n..m] == first + "\n";
    assert a == before + ("\n" + first) + second && b == before + (first + "\n") + second;
  }

  // ----- what the empty document loses -----

  /** The diff library lists no empty part, and a removal before the addition that replaces it. */
  predicate InOrder(parts: seq<Part>) {
    parts == [] || (parts[0].value != "" && !(|parts| > 1 && parts[0].kind.Added? && parts[1].kind.Removed?)
        && InOrder(parts[1..]))
  }

  lemma {:induction false} RemovedIsOld(parts: seq<Part>, i: nat)
    requires i < |parts| && parts[i].kind.Removed? && InOrder(parts)
    ensures OldOf(parts) != ""
  {
    if i > 0 { RemovedIsOld(parts[1..], i - 1); }
  }

  /** Additions in front of a single old line break mean that it was not removed. */
  lemma {:induction false} NothingRemovedAfterLeading(parts: seq<Part>, i: nat)
    requires i < |parts| && InOrder(parts) && parts[0].kind.Added? && |OldOf(parts)| <= 1
    ensures !parts[i].kind.Removed?
  {
    if i > 0 {
      var rest := parts[1..];
      assert rest[0] == parts[1];
      if rest[0].kind.Added? {
        NothingRemovedAfterLeading(rest, i - 1);
      } else if i > 1 {
        assert OldOf(rest) == rest[0].value + OldOf(rest[1..]);
        if rest[1..][i - 2].kind.Removed? { RemovedIsOld(rest[1..], i - 2); }
      }
    }
  }

  lemma {:induction false} NothingRemoved(parts: seq<Part>, n: nat)
    requires forall i :: 0 <= i < |parts| ==> !parts[i].kind.Removed?
    ensures LinesOf(Removed, parts, n) == [] && NewOf(parts) == MergedOf(parts)
  {
    if parts != [] { NothingRemoved(parts[1..], n + Newlines(parts[0].value)); }
  }

  /** Accepting what was presented gives the new text, exactly for the faithful presentations. */
  lemma AcceptingGivesNew(doc: string, parts: seq<Part>, new_: string)
    requires IsLineDiff(parts, WholeDoc(doc), new_) && InOrder(parts)
    ensures DeleteLines(Presented(doc, parts), LinesOf(Removed, parts, 0)) == new_ <==> Faithful(doc, parts)
  {
    PresentedIsMerged(doc, parts, new_);
    if Faithful(doc, parts) {
      AcceptRecoversNew(parts, WholeDoc(doc), new_);
    } else {
      LeadingIsFirst(parts);
      forall i | 0 <= i < |parts| ensures !parts[i].kind.Removed? { NothingRemovedAfterLeading(parts, i); }
      NothingRemoved(parts, 0);
      DeletingNothing(Presented(doc, parts));
    }
  }

  lemma LeadingIsFirst(parts: seq<Part>)
    requires InOrder(parts) && Leading(parts) != ""
    ensures parts != [] && parts[0].kind.Added?
  {
    if parts != [] && !parts[0].kind.Added? { OffsetsAreAhead(parts[1..], |parts[0].value|, 0); }
  }

  /**
   On an empty document the last line of the leading additions takes the place of the line break: it
   must be empty too.
   */
  predicate KeepsBreak(doc: string, parts: seq<Part>) {
    var lead := Leading(parts);
    doc == "" ==> |lead| <= 1 || lead[|lead| - 2] == '\n'
  }

  /**
   Rejecting what was presented gives the old text, exactly when the new text ends a line and an
   empty document keeps its break.
   */
  lemma RejectingGivesOld(doc: string, parts: seq<Part>, new_: string)
    requires IsLineDiff(parts, WholeDoc(doc), new_) && InOrder(parts)
    ensures DeleteLines(Presented(doc, parts), LinesOf(Added, parts, 0)) == WholeDoc(doc)
            <==> Terminated(new_) && KeepsBreak(doc, parts)
  {
    if doc != "" {
      PresentedIsMerged(doc, parts, new_);
      RollbackRecoversOld(parts, WholeDoc(doc), new_);
    } else {
      RejectingOnEmpty(doc, parts);
      StrayIsUnterminated(parts);
      LastLineOnly(Leading(parts), Stray(parts));
    }
  }

  /** What is left of a line break in front of `lead` when all its lines but the last are deleted. */
  function LastLine(lead: string): string {
    if lead == "" then "\n" else Tail("\n" + lead[..|lead| - 1]) + "\n"
  }

  lemma LastLineOnly(lead: string, stray: string)
    ensures LastLine(lead) + stray == "\n" <==> stray == "" && (|lead| <= 1 || lead[|lead| - 2] == '\n')
  {
    var last := LastLine(lead);
    assert last[|last| - 1] == '\n';
    if stray != "" {
      assert |last + stray| > 1;
    } else {
      assert last + stray == last;
      if lead != "" {
        var s := "\n" + lead[..|lead| - 1];
        assert s[|s| - 1] == if |lead| == 1 then '\n' else lead[|lead| - 2];
        assert Tail(s) != "" ==> |last| > 1;
      }
    }
  }

  /** Whole lines that are remembered from line `n` on, while the next line is not. */
  ghost predicate LeadIs(lead: string, n: nat, lines: seq<nat>) {
    Terminated(lead) && (forall i :: n <= i < n + Newlines(lead) ==> i in lines) && n + Newlines(lead) !in lines
  }

  lemma LeadLonger(value: string, lead: string, n: nat, lines: seq<nat>)
    requires Terminated(value) && LeadIs(lead, n + Newlines(value), lines)
    requires forall i :: n <= i < n + Newlines(value) ==> i in lines
    ensures LeadIs(value + lead, n, lines)
  {
    NewlinesConcat(value, lead);
    TerminatedConcat(value, lead);
  }

  lemma LeadingFirst(parts: seq<Part>)
    requires parts != [] && parts[0].value != ""
    ensures Leading(parts) == if parts[0].kind.Added? then parts[0].value + Leading(parts[1..]) else ""
  {
    var value, rest := parts[0].value, parts[1..];
    if parts[0].kind.Added? {
      TextAtCons((0, value), AtOffsets(rest, 0), 0);
    } else {
      OffsetsAreAhead(rest, |value|, 0);
    }
  }

  /** The leading additions fill the first remembered lines, and the next line is not remembered. */
  lemma {:induction false} LeadingLines(parts: seq<Part>, n: nat)
    requires WholeLines(parts) && InOrder(parts) && OldOf(parts) != ""
    ensures LeadIs(Leading(parts), n, LinesOf(Added, parts, n))
  {
    var value, rest := parts[0].value, parts[1..];
    LinesSplit(Added, parts, n);
    LeadingFirst(parts);
    if parts[0].kind.Added? {
      LeadingLines(rest, n + Newlines(value));
      assert LeadIs(Leading(rest), n + Newlines(value), LinesOf(Added, parts, n));
      LeadLonger(value, Leading(rest), n, LinesOf(Added, parts, n));
    } else {
      HasNewline(value);
    }
  }

  /** The same deletions from the break and the leading additions in either order. */
  lemma LeadingKept(lead: string, lines: seq<nat>)
    requires LeadIs(lead, 0, lines)
    ensures Keep(lead + "\n", 0, lines) == "\n" && Keep("\n" + lead, 0, lines) == LastLine(lead)
  {
    KeepConcat(lead, "\n", 0, lines);
    KeepGone(lead, 0, lines);
    KeepBreak(Newlines(lead), lines);
    if lead == "" {
      assert "\n" + lead == "\n";
    } else {
      var init := lead[..|lead| - 1];
      var s := "\n" + init;
      assert lead == init + "\n" && "\n" + lead == s + "\n";
      NewlinesConcat(init, "\n");
      NewlinesConcat("\n", init);
      OneBreak();
      KeepConcat(s, "\n", 0, lines);
      KeepRest(s, 0, lines);
    }
  }

  lemma OneBreak()
    ensures Newlines("\n") == 1
  {
    assert "\n"[1..] == "";
  }

  lemma KeepBreak(n: nat, lines: seq<nat>)
    requires n !in lines
    ensures Keep("\n", n, lines) == "\n"
  {
    assert "\n"[1..] == "";
  }

  lemma RejectingOnEmpty(doc: string, parts: seq<Part>)
    requires doc == "" && WholeLines(parts) && InOrder(parts) && OldOf(parts) == "\n"
    ensures DeleteLines(Presented(doc, parts), LinesOf(Added, parts, 0)) == LastLine(Leading(parts)) + Stray(parts)
  {
    PresentedOnEmpty(doc, parts);
    LeadingLines(parts, 0);
    KeptOfMerged(parts);
    SwapPresented(Presented(doc, parts), MergedOf(parts), Leading(parts), Following(parts), LinesOf(Added, parts, 0),
        Stray(parts));
  }

  /** The additions after the line break of an empty document. */
  function Following(parts: seq<Part>): string {
    TextAt(AtOffsets(parts, 0), 1)
  }

  /** The presented text has the break in front of the leading additions, the merged text behind them. */
  predicate BreakMoved(shown: string, merged: string, lead: string, later: string) {
    merged == lead + "\n" + later && shown == "\n" + lead + later
  }

  lemma KeptOfMerged(parts: seq<Part>)
    requires WholeLines(parts)
    ensures Keep(MergedOf(parts), 0, LinesOf(Added, parts, 0)) == OldOf(parts) + Stray(parts)
  {
    DeletingKind(Added, parts, 0);
    OthersAreTexts(parts);
  }

  lemma SwapPresented(shown: string, merged: string, lead: string, later: string, lines: seq<nat>, stray: string)
    requires BreakMoved(shown, merged, lead, later) && Keep(merged, 0, lines) == "\n" + stray
    requires LeadIs(lead, 0, lines)
    ensures DeleteLines(shown, lines) == LastLine(lead) + stray
  {
    SwapBreak(lead, later, lines, stray);
    DeleteIsKeep(shown, lines);
  }

  /** What a deletion leaves when the break is moved from behind the leading additions to their front. */
  lemma SwapBreak(lead: string, later: string, lines: seq<nat>, stray: string)
    requires LeadIs(lead, 0, lines)
    requires Keep(lead + "\n" + later, 0, lines) == "\n" + stray
    ensures Keep("\n" + lead + later, 0, lines) == LastLine(lead) + stray
  {
    LeadingKept(lead, lines);
    NewlinesConcat(lead, "\n");
    NewlinesConcat("\n", lead);
    OneBreak();
    KeepConcat(lead + "\n", later, 0, lines);
    KeepConcat("\n" + lead, later, 0, lines);
    SameRest("\n", Keep(later, Newlines(lead) + 1, lines), stray);
  }

  lemma SameRest(a: string, b: string, c: string)
    requires a + b == a + c
    ensures b == c
  {
    assert b == (a + b)[|a|..] && c == (a + c)[|a|..];
  }

  lemma DeleteIsKeep(doc: string, lines: seq<nat>)
    ensures DeleteLines(doc, lines) == Keep(doc, 0, lines)
  {
    WithoutIsKeep(doc, lines, 0);
    assert doc[0..] == doc && doc[..0] == "";
  }

  /** The two texts on an empty document: the merged one, and the one with its break in front. */
  lemma PresentedOnEmpty(doc: string, parts: seq<Part>)
    requires doc == "" && WholeLines(parts) && OldOf(parts) == "\n"
    ensures BreakMoved(Presented(doc, parts), MergedOf(parts), Leading(parts), Following(parts))
  {
    var lead, later := TextAt(AtOffsets(parts, 0), 0), TextAt(AtOffsets(parts, 0), 1);
    var whole := WholeDoc(doc);
    assert whole == "\n" && whole[0..] == whole;
    Endings(doc, parts);
    RenderingParts(whole, parts, 0);
    Assoc(lead, "\n", later);
    Assoc("\n", lead, later);
  }

  /** An empty document and a line put before its line break: accepted, the two lines come out swapped. */
  lemma EmptyDocumentSwapsLines(parts: seq<Part>, same: seq<Part>)
    requires same == [Part(Same, "\n")] && parts == [Part(Added, "x\n")] + same
    ensures IsLineDiff(parts, WholeDoc(""), "x\n\n") && InOrder(parts) && !Faithful("", parts)
    ensures DeleteLines(Presented("", parts), LinesOf(Removed, parts, 0)) == "\nx\n"
  {
    DiffExample(parts, same);
    LeadingExample(parts, same);
    forall i | 0 <= i < |parts| ensures !parts[i].kind.Removed? {}
    NothingRemoved(parts, 0);
    DeletingNothing("\nx\n");
  }

  lemma DiffExample(parts: seq<Part>, same: seq<Part>)
    requires same == [Part(Same, "\n")] && parts == [Part(Added, "x\n")] + same
    ensures OldOf(parts) == "\n" && NewOf(parts) == "x\n\n" && WholeLines(parts) && InOrder(parts)
  {
    assert parts[1..] == same && same[1..] == [];
    assert WholeLines(same[1..]) && InOrder(same[1..]) && WholeLines(same) && InOrder(same);
    assert OldOf(same) == same[0].value + OldOf(same[1..]);
    assert NewOf(same) == same[0].value + NewOf(same[1..]);
  }

  lemma LeadingExample(parts: seq<Part>, same: seq<Part>)
    requires same == [Part(Same, "\n")] && parts == [Part(Added, "x\n")] + same
    ensures !Faithful("", parts) && Presented("", parts) == "\nx\n"
  {
    assert parts[1..] == same && same[1..] == [];
    assert AtOffsets(same, 0) == [] by { assert AtOffsets(same[1..], 1) == []; }
    assert InsertionsOf("", same, 0) == [] by { assert InsertionsOf("", same[1..], 1) == []; }
    var one: seq<Insertion> := [(0, "x\n")];
    TextAtCons((0, "x\n"), [], 0);
    TextAtCons((0, "\n"), one, 0);
    assert AtOffsets(parts, 0) == one && InsertionsOf("", parts, 0) == one;
    assert Leading(parts)[0] == 'x';
  }

  /** Rejected, the same diff leaves the added line and loses the empty one. */
  lemma EmptyDocumentKeepsAddition(doc: string, parts: seq<Part>, same: seq<Part>)
    requires doc == "" && same == [Part(Same, "\n")] && parts == [Part(Added, "x\n")] + same
    ensures IsLineDiff(parts, WholeDoc(doc), "x\n\n") && InOrder(parts) && Terminated("x\n\n")
            && !KeepsBreak(doc, parts)
    ensures DeleteLines(Presented(doc, parts), LinesOf(Added, parts, 0)) == "x\n" != WholeDoc(doc)
  {
    DiffExample(parts, same);
    LeadingOfExample(parts, same);
    RejectingOnEmpty(doc, parts);
    LastLineOfExample(Leading(parts));
    assert Stray(parts) == "";
  }

  lemma LastLineOfExample(lead: string)
    requires lead == "x\n"
    ensures LastLine(lead) == "x\n"
  {
    var s := "\n" + lead[..1];
    assert s == "\nx" && s[..1] == "\n";
    assert Tail(s) == Tail(s[..1]) + "x";
  }

  lemma LeadingOfExample(parts: seq<Part>, same: seq<Part>)
    requires same == [Part(Same, "\n")] && parts == [Part(Added, "x\n")] + same
    ensures Leading(parts) == "x\n"
  {
    assert parts[1..] == same && same[1..] == [];
    assert AtOffsets(same, 0) == [] by { assert AtOffsets(same[1..], 1) == []; }
    TextAtCons((0, "x\n"), [], 0);
  }

  /** A new text without a final line break: its last line survives a reject. */
  lemma UnterminatedSurvivesReject(parts: seq<Part>, last: seq<Part>)
    requires last == [Part(Added, "b")] && parts == [Part(Same, "a\n")] + last
    ensures IsLineDiff(parts, WholeDoc("a\n"), "a\nb") && InOrder(parts) && !Terminated("a\nb")
    ensures DeleteLines(Presented("a\n", parts), LinesOf(Added, parts, 0)) == "a\nb" != WholeDoc("a\n")
  {
    assert parts[1..] == last && last[1..] == [];
    assert OldOf(last) == "" && NewOf(last) == "b" by { assert OldOf(last[1..]) == NewOf(last[1..]) == ""; }
    PresentedIsMerged("a\n", parts, "a\nb");
    RollbackRecoversOld(parts, "a\n", "a\nb");
    assert Tail("b") == Tail("") + "b" by { assert "b"[..0] == ""; }
  }
}
