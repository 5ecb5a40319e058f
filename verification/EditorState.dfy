/**
 The editor's state machine around a presented diff: entering the diff mode edits the document,
 leaving it takes the additions back, accepting it takes the deletions out, and a user's own edit
 makes the machine forget both. Every edit by the machine itself is announced to the text-edited
 handler too, which must ignore it.
 */
module EditorState {
  import opened Outcome
  import opened InlineDiff

  datatype Mode = Normal | Highlight | Diff | DiffWait | Dispose

  class StateOfEditor {
    var doc: string
    var mode: Mode
    var added: seq<nat>
    var deleted: seq<nat>
    var changing: bool
    var modifDoc: Option<string>
    const diffLines: (string, string) -> seq<Part>

    /** Between events: no edit under way, and lines are remembered only while a diff is shown. */
    ghost predicate Valid()
      reads this
    {
      && !changing
      && (!mode.Diff? ==> added == [] && deleted == [])
      && IsDiffer(diffLines)
    }

    /** The document is the presentation of the change from one text to another. */
    ghost predicate Shows(before: string, new_: string)
      reads this
    {
      var parts := diffLines(WholeDoc(before), new_);
      && mode.Diff?
      && doc == Presented(before, parts)
      && added == LinesOf(Added, parts, 0)
      && deleted == LinesOf(Removed, parts, 0)
    }

    constructor (text: string, differ: (string, string) -> seq<Part>)
      requires IsDiffer(differ)
      ensures Valid() && doc == text && mode == Normal && diffLines == differ
    {
      doc, mode, added, deleted, changing, modifDoc, diffLines := text, Normal, [], [], false, None, differ;
    }

    /** An edit by the machine, announced while `changing` is set: the announcement changes nothing. */
    method Edit(text: string)
      requires changing && IsDiffer(diffLines)
      modifies this
      ensures doc == text && changing
      ensures unchanged(this`mode, this`added, this`deleted, this`modifDoc)
      decreases 1
    {
      doc := text;
      OnTextEdited();
    }

    method RemoveDecoration()
      modifies this`added, this`deleted
      ensures added == [] && deleted == []
    {
      added, deleted := [], [];
    }

    /** The merged document, with both kinds of lines remembered. */
    method PresentDiffToUser(modif: string)
      requires !changing && IsDiffer(diffLines)
      modifies this
      ensures unchanged(this`mode, this`modifDoc) && !changing
      ensures doc == Presented(old(doc), diffLines(WholeDoc(old(doc)), modif))
      ensures added == LinesOf(Added, diffLines(WholeDoc(old(doc)), modif), 0)
      ensures deleted == LinesOf(Removed, diffLines(WholeDoc(old(doc)), modif), 0)
      decreases 2
    {
      RemoveDecoration();
      var parts := diffLines(WholeDoc(doc), modif);
      changing := true;
      var edits;
      edits, added, deleted := CollectEdits(doc, parts);
      Edit(Rendered(doc, edits, 0));
      changing := false;
    }

    method DislikeAndRollback()
      requires !changing && IsDiffer(diffLines)
      modifies this
      ensures unchanged(this`mode, this`modifDoc) && !changing
      ensures doc == DeleteLines(old(doc), old(added)) && added == [] && deleted == []
      decreases 2
    {
      changing := true;
      Edit(DeleteLines(doc, added));
      changing := false;
      RemoveDecoration();
    }

    /** Leaving the diff mode rolls back, entering it presents the pending change. */
    method SwitchMode(newMode: Mode)
      requires !changing && IsDiffer(diffLines)
      modifies this
      ensures !changing && mode == newMode && unchanged(this`modifDoc)
      ensures !newMode.Diff? || modifDoc.None? ==> doc == RolledBack(old(mode), old(doc), old(added))
      ensures !newMode.Diff? && old(mode).Diff? ==> added == [] && deleted == []
      ensures !newMode.Diff? && !old(mode).Diff? ==> unchanged(this`added, this`deleted)
      ensures newMode.Diff? && modifDoc.Some? ==> Shows(RolledBack(old(mode), old(doc), old(added)), modifDoc.value)
      decreases 3
    {
      var oldMode := mode;
      mode := newMode;
      if oldMode == Diff { DislikeAndRollback(); }
      if newMode == Diff && modifDoc.Some? { PresentDiffToUser(modifDoc.value); }
    }

    method HandsOffDontRemoveAnything()
      modifies this`added, this`deleted
      ensures added == [] && deleted == []
    {
      RemoveDecoration();
    }

    /** The handler leaves the text alone, whoever changed it; it ends the diff unless the machine is editing. */
    method OnTextEdited()
      requires IsDiffer(diffLines)
      modifies this
      ensures unchanged(this`doc, this`changing, this`modifDoc)
      ensures changing ==> unchanged(this)
      ensures !changing && old(mode) in {Diff, DiffWait} ==> mode == Normal && added == [] && deleted == []
      ensures !changing && old(mode) == Highlight ==> mode == Normal && unchanged(this`added, this`deleted)
      ensures !changing && old(mode) !in {Diff, DiffWait, Highlight} ==> unchanged(this)
      decreases if changing then 0 else 4
    {
      if changing { return; }
      if mode == Diff || mode == DiffWait {
        HandsOffDontRemoveAnything();
        DeletingNothing(doc);
        SwitchMode(Normal);
      } else if mode == Highlight {
        SwitchMode(Normal);
      }
    }

    /** Accepting: the deletions go, and the rollback run by the change of mode deletes nothing. */
    method LikeAndAccept()
      requires Valid()
      modifies this
      ensures Valid() && mode == Normal && added == [] && deleted == [] && unchanged(this`modifDoc)
      ensures doc == DeleteLines(old(doc), old(deleted))
      ensures forall before, new_ :: old(Shows(before, new_)) ==>
        (doc == new_ <==> Faithful(before, diffLines(WholeDoc(before), new_)))
    {
      ghost var shown := doc;
      forall before, new_ | Shows(before, new_)
        ensures DeleteLines(doc, deleted) == new_ <==> Faithful(before, diffLines(WholeDoc(before), new_))
      {
        AcceptingGivesNew(before, diffLines(WholeDoc(before), new_), new_);
      }
      changing := true;
      Edit(DeleteLines(doc, deleted));
      changing := false;
      RemoveDecoration();
      DeletingNothing(doc);
      SwitchMode(Normal);
    }

    /** Rejecting, as the escape key does it: a change of mode. */
    method Reject(newMode: Mode)
      requires Valid() && !newMode.Diff?
      modifies this
      ensures Valid() && mode == newMode && added == [] && deleted == []
      ensures forall before, new_ :: old(Shows(before, new_)) ==>
        (doc == WholeDoc(before) <==> Terminated(new_) && KeepsBreak(before, diffLines(WholeDoc(before), new_)))
    {
      forall before, new_ | Shows(before, new_)
        ensures DeleteLines(doc, added) == WholeDoc(before)
           <==> Terminated(new_) && KeepsBreak(before, diffLines(WholeDoc(before), new_))
      {
        RejectingGivesOld(before, diffLines(WholeDoc(before), new_), new_);
      }
      SwitchMode(newMode);
    }

    /** The user's own edit stays as it is, whatever the mode; later changes of mode find nothing to delete. */
    method UserEdit(text: string)
      requires Valid()
      modifies this
      ensures Valid() && doc == text && !mode.Diff? && added == [] && deleted == []
    {
      doc := text;
      OnTextEdited();
    }

    /** A proposed change arrives and is shown, after rolling back the one shown so far. */
    method ProposeChange(modif: string)
      requires Valid()
      modifies this
      ensures Valid() && Shows(RolledBack(old(mode), old(doc), old(added)), modif)
    {
      modifDoc := Some(modif);
      SwitchMode(Diff);
    }
  }

  /** What is assumed of the diff library. */
  ghost predicate IsDiffer(diff: (string, string) -> seq<Part>) {
    forall old_, new_ :: Terminated(old_) ==> IsLineDiff(diff(old_, new_), old_, new_) && InOrder(diff(old_, new_))
  }

  function RolledBack(mode: Mode, doc: string, added: seq<nat>): string {
    if mode.Diff? then DeleteLines(doc, added) else doc
  }

  lemma LinesStep(kind: Kind, parts: seq<Part>, k: nat, lines: seq<nat>, line: nat)
    requires k < |parts|
    ensures var count := Newlines(parts[k].value);
            var more := if parts[k].kind == kind then Lines(line, count) else [];
            lines + LinesOf(kind, parts[k..], line) == (lines + more) + LinesOf(kind, parts[k + 1..], line + count)
  {
    assert parts[k..][0] == parts[k] && parts[k..][1..] == parts[k + 1..];
  }

  lemma EditsStep(doc: string, parts: seq<Part>, k: nat, edits: seq<Insertion>, line: nat)
    requires k < |parts|
    ensures edits + InsertionsOf(doc, parts[k..], line)
         == if parts[k].kind.Added?
            then (edits + [(LineStart(doc, line), parts[k].value)]) + InsertionsOf(doc, parts[k + 1..], line)
            else edits + InsertionsOf(doc, parts[k + 1..], line + Newlines(parts[k].value))
  {
    assert parts[k..][0] == parts[k] && parts[k..][1..] == parts[k + 1..];
  }

  datatype Collected = Collected(edits: seq<Insertion>, added: seq<nat>, deleted: seq<nat>, line: nat, insertLine: nat)

  /** What has been collected, with what the parts from `k` on still give, is the whole result. */
  ghost predicate SoFar(doc: string, parts: seq<Part>, k: nat, c: Collected) {
    && k <= |parts|
    && c.edits + InsertionsOf(doc, parts[k..], c.insertLine) == AllInsertions(doc, parts)
    && c.added + LinesOf(Added, parts[k..], c.line) == LinesOf(Added, parts, 0)
    && c.deleted + LinesOf(Removed, parts[k..], c.line) == LinesOf(Removed, parts, 0)
  }

  /** How one part is collected. */
  ghost function Collect(doc: string, part: Part, c: Collected): Collected {
    var count := Newlines(part.value);
    match part.kind
    case Removed =>
      c.(deleted := c.deleted + Lines(c.line, count), line := c.line + count, insertLine := c.insertLine + count)
    case Added =>
      c.(edits := c.edits + [(LineStart(doc, c.insertLine), part.value)],
         added := c.added + Lines(c.line, count), line := c.line + count)
    case Same => c.(line := c.line + count, insertLine := c.insertLine + count)
  }

  lemma CollectKeeps(doc: string, parts: seq<Part>, k: nat, c: Collected)
    requires k < |parts| && SoFar(doc, parts, k, c)
    ensures SoFar(doc, parts, k + 1, Collect(doc, parts[k], c))
  {
    var d := Collect(doc, parts[k], c);
    EditsKept(doc, parts, k, c, d);
    LinesKept(Added, parts, k, c.added, c.line, d.added);
    LinesKept(Removed, parts, k, c.deleted, c.line, d.deleted);
  }

  lemma EditsKept(doc: string, parts: seq<Part>, k: nat, c: Collected, d: Collected)
    requires k < |parts| && d == Collect(doc, parts[k], c)
    ensures d.edits + InsertionsOf(doc, parts[k + 1..], d.insertLine)
            == c.edits + InsertionsOf(doc, parts[k..], c.insertLine)
  {
    EditsStep(doc, parts, k, c.edits, c.insertLine);
  }

  lemma LinesKept(kind: Kind, parts: seq<Part>, k: nat, lines: seq<nat>, line: nat, more: seq<nat>)
    requires k < |parts|
             && more == if parts[k].kind == kind then lines + Lines(line, Newlines(parts[k].value)) else lines
    ensures more + LinesOf(kind, parts[k + 1..], line + Newlines(parts[k].value))
            == lines + LinesOf(kind, parts[k..], line)
  {
    LinesStep(kind, parts, k, lines, line);
    assert lines + [] == lines;
  }

  lemma CollectStarts(doc: string, parts: seq<Part>)
    ensures SoFar(doc, parts, 0, Collected(if WholeDoc(doc) != doc then [(|doc|, "\n")] else [], [], [], 0, 0))
  {
    assert parts[0..] == parts;
  }

  lemma CollectEnds(doc: string, parts: seq<Part>, c: Collected)
    requires SoFar(doc, parts, |parts|, c)
    ensures c.edits == AllInsertions(doc, parts) && c.added == LinesOf(Added, parts, 0)
            && c.deleted == LinesOf(Removed, parts, 0)
  {
  }

  /** One pass over the parts: `line` counts in the merged document, `insertLine` in the old one. */
  method CollectEdits(doc: string, parts: seq<Part>) returns (edits: seq<Insertion>, added: seq<nat>, deleted: seq<nat>)
    ensures edits == AllInsertions(doc, parts)
    ensures added == LinesOf(Added, parts, 0) && deleted == LinesOf(Removed, parts, 0)
  {
    edits, added, deleted := if WholeDoc(doc) != doc then [(|doc|, "\n")] else [], [], [];
    var line, insertLine := 0, 0;
    CollectStarts(doc, parts);
    for k := 0 to |parts|
      invariant SoFar(doc, parts, k, Collected(edits, added, deleted, line, insertLine))
    {
      var part := parts[k];
      var count := Newlines(part.value);
      ghost var was := Collected(edits, added, deleted, line, insertLine);
      if part.kind.Removed? {
        deleted := PushLines(deleted, line, count);
        insertLine := insertLine + count;
      } else if part.kind.Added? {
        edits := edits + [(LineStart(doc, insertLine), part.value)];
        added := PushLines(added, line, count);
      } else {
        insertLine := insertLine + count;
      }
      line := line + count;
      assert Collected(edits, added, deleted, line, insertLine) == Collect(doc, part, was);
      CollectKeeps(doc, parts, k, was);
    }
    CollectEnds(doc, parts, Collected(edits, added, deleted, line, insertLine));
  }

  method PushLines(lines: seq<nat>, from: nat, count: nat) returns (r: seq<nat>)
    ensures r == lines + Lines(from, count)
  {
    r := lines;
    for i := 0 to count
      invariant r == lines + Lines(from, count)[..i]
    {
      r := r + [from + i];
    }
  }
}
