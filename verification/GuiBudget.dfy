/**
 When an inventory is refused: the budget is charged in small amounts all over the walk, yet only
 the grand totals matter, and the tree itself is refused exactly for an unsafe node.
 */
module GuiBudget {
  import opened Outcome
  import opened GuiInventory

  // ----- the walk without a budget -----

  /** What a part of the tree would list and cost. */
  function Plus(a: Progress, b: Progress): Progress {
    Progress(a.output + b.output, a.bytes + b.bytes, a.entries + b.entries)
  }

  const NOTHING: Progress := Progress([], 0, 0)

  function PlanDir(h: Hash, cut: Cut, t: Tree, prefix: Path, source: bool): Option<Progress>
    requires IsTree(t) && |prefix| <= MAX_DEPTH
    decreases MAX_DEPTH - |prefix|, 1, 0
  {
    var names := Listed(t, prefix);
    match PlanNames(h, cut, t, prefix, names, source)
    case None => None
    case Some(d) => Some(d.(entries := |names| + d.entries))
  }

  function PlanNames(h: Hash, cut: Cut, t: Tree, prefix: Path, names: seq<string>, source: bool): Option<Progress>
    requires IsTree(t) && |prefix| <= MAX_DEPTH && forall i :: 0 <= i < |names| ==> prefix + [names[i]] in t
    decreases MAX_DEPTH - |prefix|, 0, |names|
  {
    if names == [] then Some(NOTHING)
    else
      assert forall i :: 0 <= i < |names[1..]| ==> names[1..][i] == names[i + 1];
      match (PlanEntry(h, cut, t, prefix, names[0], source), PlanNames(h, cut, t, prefix, names[1..], source))
      case (Some(a), Some(b)) => Some(Plus(a, b))
      case _ => None
  }

  function PlanEntry(h: Hash, cut: Cut, t: Tree, prefix: Path, name: string, source: bool): Option<Progress>
    requires IsTree(t) && |prefix| <= MAX_DEPTH && prefix + [name] in t
    decreases MAX_DEPTH - |prefix|, 0, 0
  {
    var path := prefix + [name];
    if !ValidRelative(Join(path)) then None
    else
      ValidDepth(t, path);
      if source && Excluded(Join(path)) then Some(NOTHING)
      else match t[path]
        case Other => None
        case Dir =>
          (match PlanDir(h, cut, t, path, source)
           case None => None
           case Some(d) => Some(Plus(Progress([Directory(path)], 0, 0), d)))
        case File(bytes) =>
          if |bytes| > MAX_FILE then None
          else Some(Progress([FileEntry(path, |bytes|, h(bytes))], |bytes|, |cut(path, |bytes|)|))
  }

  // ----- only the totals matter -----

  predicate Within(s: Progress) {
    s.bytes <= MAX_BYTES && s.entries <= MAX_ENTRIES
  }

  /** Spending a planned part: possible exactly when the totals stay within the limits. */
  function Spend(s: Progress, d: Option<Progress>): Option<Progress> {
    if d.Some? && Within(Plus(s, d.value)) then Some(Plus(s, d.value)) else None
  }

  lemma {:induction false} NamesTotal(s: Progress, n: nat)
    requires Within(s)
    ensures ChargeNames(s, n) == Spend(s, Some(Progress([], 0, n)))
    decreases n
  {
    assert s.output + [] == s.output;
    if n > 0 && Charge(s, 0).Some? { NamesTotal(Charge(s, 0).value, n - 1); }
  }

  lemma {:induction false} ReadsTotal(s: Progress, parts: seq<nat>, size: nat)
    requires Within(s) && AreReads(parts, size)
    ensures ChargeReads(s, parts) == Spend(s, Some(Progress([], size, |parts|)))
    decreases |parts|
  {
    assert s.output + [] == s.output;
    if parts != [] && Charge(s, parts[0]).Some? {
      ReadsTotal(Charge(s, parts[0]).value, parts[1..], size - parts[0]);
    }
  }

  lemma PlusAssociative(s: Progress, a: Progress, b: Progress)
    ensures Plus(Plus(s, a), b) == Plus(s, Plus(a, b))
  {
  }

  /** Spending two parts one after the other is spending both. */
  lemma SpendBoth(s: Progress, a: Progress, b: Progress)
    ensures Spend(s, Some(Plus(a, b))) == match Spend(s, Some(a)) case None => None case Some(s1) => Spend(s1, Some(b))
  {
    PlusAssociative(s, a, b);
  }

  /** The names of a directory are charged ahead of what is below them. */
  lemma SpendNames(s: Progress, n: nat, below: Option<Progress>)
    ensures (if below.Some? then Spend(s, Some(below.value.(entries := n + below.value.entries))) else None)
         == match Spend(s, Some(Progress([], 0, n))) case None => None case Some(s1) => Spend(s1, below)
  {
    if below.Some? {
      SpendBoth(s, Progress([], 0, n), below.value);
      assert [] + below.value.output == below.value.output;
    }
  }

  lemma NamesThenBelow(s: Progress, n: nat, below: Option<Progress>)
    requires Within(s)
    ensures ChargeNames(s, n).Some? ==> Within(ChargeNames(s, n).value)
    ensures (match ChargeNames(s, n) case None => None case Some(s1) => Spend(s1, below))
         == if below.Some? then Spend(s, Some(below.value.(entries := n + below.value.entries))) else None
  {
    NamesTotal(s, n);
    SpendNames(s, n, below);
  }

  lemma {:induction false} DirTotal(h: Hash, cut: Cut, t: Tree, prefix: Path, source: bool, s: Progress)
    requires IsCut(cut) && IsTree(t) && |prefix| <= MAX_DEPTH && Within(s)
    ensures WalkDir(h, cut, t, prefix, source, s) == Spend(s, PlanDir(h, cut, t, prefix, source))
    decreases MAX_DEPTH - |prefix|, 1, 0
  {
    var names := Listed(t, prefix);
    NamesThenBelow(s, |names|, PlanNames(h, cut, t, prefix, names, source));
    var s1 := ChargeNames(s, |names|);
    if s1.Some? { NamesTotals(h, cut, t, prefix, names, source, s1.value); }
  }

  lemma {:induction false} NamesTotals(h: Hash, cut: Cut, t: Tree, prefix: Path, names: seq<string>, source: bool,
                                       s: Progress)
    requires IsCut(cut) && IsTree(t) && |prefix| <= MAX_DEPTH && Within(s)
             && forall i :: 0 <= i < |names| ==> prefix + [names[i]] in t
    ensures WalkNames(h, cut, t, prefix, names, source, s) == Spend(s, PlanNames(h, cut, t, prefix, names, source))
    decreases MAX_DEPTH - |prefix|, 0, |names|
  {
    if names == [] {
      assert Plus(s, NOTHING) == s;
    } else {
      var rest := names[1..];
      assert forall i :: 0 <= i < |rest| ==> rest[i] == names[i + 1];
      EntryTotal(h, cut, t, prefix, names[0], source, s);
      var first, more := PlanEntry(h, cut, t, prefix, names[0], source), PlanNames(h, cut, t, prefix, rest, source);
      if first.Some? && more.Some? { SpendBoth(s, first.value, more.value); }
      if Spend(s, first).Some? { NamesTotals(h, cut, t, prefix, rest, source, Plus(s, first.value)); }
    }
  }

  lemma {:induction false} EntryTotal(h: Hash, cut: Cut, t: Tree, prefix: Path, name: string, source: bool, s: Progress)
    requires IsCut(cut) && IsTree(t) && |prefix| <= MAX_DEPTH && prefix + [name] in t && Within(s)
    ensures WalkEntry(h, cut, t, prefix, name, source, s) == Spend(s, PlanEntry(h, cut, t, prefix, name, source))
    decreases MAX_DEPTH - |prefix|, 0, 0
  {
    var path := prefix + [name];
    if ValidRelative(Join(path)) {
      ValidDepth(t, path);
      if source && Excluded(Join(path)) {
        SpendNothing(s);
      } else if t[path].Dir? {
        DirTotal(h, cut, t, path, source, Push(s, Directory(path)));
        DirEntryTotal(s, path, PlanDir(h, cut, t, path, source));
      } else if t[path].File? {
        var bytes := t[path].bytes;
        FileTotal(FileEntry(path, |bytes|, h(bytes)), |bytes|, cut(path, |bytes|), s);
      }
    }
  }

  lemma SpendNothing(s: Progress)
    requires Within(s)
    ensures Spend(s, Some(NOTHING)) == Some(s)
  {
    assert Plus(s, NOTHING) == s;
  }

  lemma DirEntryTotal(s: Progress, path: Path, below: Option<Progress>)
    requires Within(s)
    ensures var own := Progress([Directory(path)], 0, 0);
            Spend(Push(s, Directory(path)), below)
                == if below.Some? then Spend(s, Some(Plus(own, below.value))) else None
  {
    var own := Progress([Directory(path)], 0, 0);
    assert Push(s, Directory(path)) == Plus(s, own);
    if below.Some? { SpendBoth(s, own, below.value); }
  }

  lemma {:induction false} FileTotal(e: Entry, size: nat, parts: seq<nat>, s: Progress)
    requires Within(s) && AreReads(parts, size)
    ensures Spend(s, Some(Progress([e], size, |parts|)))
         == match ChargeReads(s, parts) case None => None case Some(s1) => Some(Push(s1, e))
  {
    ReadsTotal(s, parts, size);
    assert s.output + [] == s.output;
  }

  /** An inventory is refused exactly when the tree has no plan or the plan's grand totals exceed a limit. */
  lemma OnlyTotalsMatter(h: Hash, cut: Cut, t: Tree, source: bool)
    requires IsCut(cut) && IsTree(t)
    ensures var plan := PlanDir(h, cut, t, [], source);
            InventoryBy(h, cut, t, source) == if plan.Some? && Within(plan.value) then Some(plan.value.output) else None
  {
    var root: Path := [];
    FromNothing(h, cut, t, root, source, NOTHING);
  }

  lemma FromNothing(h: Hash, cut: Cut, t: Tree, root: Path, source: bool, s: Progress)
    requires IsCut(cut) && IsTree(t) && |root| <= MAX_DEPTH && s == NOTHING
    ensures var plan := PlanDir(h, cut, t, root, source);
            WalkDir(h, cut, t, root, source, s) == if plan.Some? && Within(plan.value) then plan else None
  {
    DirTotal(h, cut, t, root, source, s);
    var plan := PlanDir(h, cut, t, root, source);
    if plan.Some? { PlusNothing(plan.value); }
  }

  lemma PlusNothing(d: Progress)
    ensures Plus(NOTHING, d) == d
  {
    assert [] + d.output == d.output;
  }

  // ----- what has no plan -----

  /** Everything above `p`, from depth `from` on, is shown: the walk comes across `p`. */
  ghost predicate Reached(source: bool, p: Path, from: nat) {
    source ==> forall k :: from < k < |p| ==> !Excluded(Join(p[..k]))
  }

  /**
   A node the walk does not refuse: its path is valid and, unless left out, it is a directory or a
   file of allowed size.
   */
  predicate SafeNode(t: Tree, source: bool, p: Path)
    requires p in t
  {
    && ValidRelative(Join(p))
    && (!(source && Excluded(Join(p))) ==> !t[p].Other? && (t[p].File? ==> |t[p].bytes| <= 0x800_0000))
  }

  ghost predicate Meets(t: Tree, source: bool, prefix: Path, names: seq<string>, p: Path) {
    p in t && |p| > |prefix| && p[..|prefix|] == prefix && p[|prefix|] in names && Reached(source, p, |prefix|)
  }

  ghost predicate AllSafe(t: Tree, source: bool, prefix: Path, names: seq<string>) {
    forall p :: Meets(t, source, prefix, names, p) ==> SafeNode(t, source, p)
  }

  /** Below one name: the node itself, and what is met inside it. */
  lemma MeetsBelow(t: Tree, source: bool, prefix: Path, name: string, p: Path)
    requires IsTree(t) && prefix + [name] in t
    ensures var path := prefix + [name];
            Meets(t, source, prefix, [name], p)
            <==> p == path || (Meets(t, source, path, Listed(t, path), p) && !(source && Excluded(Join(path))))
  {
    var path := prefix + [name];
    assert path[..|path|] == path && path[..|prefix|] == prefix;
    if |p| > |prefix| && p[..|prefix|] == prefix && p[|prefix|] == name {
      assert p[..|path|] == path;
      if p in t && |p| > |path| { ChildIsListed(t, path, p); }
      if |p| == |path| { assert p == path; }
    }
    if |p| > |path| && p[..|path|] == path {
      assert p[..|prefix|] == path[..|prefix|] && p[|prefix|] == path[|prefix|];
    }
  }

  lemma SafeEntryIff(t: Tree, source: bool, prefix: Path, name: string)
    requires IsTree(t) && prefix + [name] in t
    ensures var path := prefix + [name];
            AllSafe(t, source, prefix, [name])
            <==> SafeNode(t, source, path)
                 && ((source && Excluded(Join(path))) || AllSafe(t, source, path, Listed(t, path)))
  {
    var path := prefix + [name];
    forall p ensures Meets(t, source, prefix, [name], p)
                <==> p == path || (Meets(t, source, path, Listed(t, path), p) && !(source && Excluded(Join(path))))
    {
      MeetsBelow(t, source, prefix, name, p);
    }
    assert Meets(t, source, prefix, [name], path);
  }

  lemma SafeNamesIff(t: Tree, source: bool, prefix: Path, name: string, rest: seq<string>)
    ensures AllSafe(t, source, prefix, [name] + rest)
            <==> AllSafe(t, source, prefix, [name]) && AllSafe(t, source, prefix, rest)
  {
    forall p
      ensures Meets(t, source, prefix, [name] + rest, p)
              <==> Meets(t, source, prefix, [name], p) || Meets(t, source, prefix, rest, p)
    {
    }
  }

  /** A file has nothing below it. */
  lemma NothingBelowFile(t: Tree, source: bool, path: Path)
    requires IsTree(t) && path in t && !t[path].Dir?
    ensures AllSafe(t, source, path, Listed(t, path))
  {
    forall p ensures !Meets(t, source, path, Listed(t, path), p) {
      if p in t && |p| > |path| && p[..|path|] == path {
        assert Placed(t, path);
        AncestorIsDir(t, p, |path|);
      }
    }
  }

  lemma {:induction false} DirPlanned(h: Hash, cut: Cut, t: Tree, prefix: Path, source: bool)
    requires IsTree(t) && |prefix| <= MAX_DEPTH
    ensures PlanDir(h, cut, t, prefix, source).Some? <==> AllSafe(t, source, prefix, Listed(t, prefix))
    decreases MAX_DEPTH - |prefix|, 1, 0
  {
    NamesPlanned(h, cut, t, prefix, Listed(t, prefix), source);
  }

  lemma {:induction false} NamesPlanned(h: Hash, cut: Cut, t: Tree, prefix: Path, names: seq<string>, source: bool)
    requires IsTree(t) && |prefix| <= MAX_DEPTH && forall i :: 0 <= i < |names| ==> prefix + [names[i]] in t
    ensures PlanNames(h, cut, t, prefix, names, source).Some? <==> AllSafe(t, source, prefix, names)
    decreases MAX_DEPTH - |prefix|, 0, |names|
  {
    if names != [] {
      var rest := names[1..];
      assert forall i :: 0 <= i < |rest| ==> rest[i] == names[i + 1];
      EntryPlanned(h, cut, t, prefix, names[0], source);
      NamesPlanned(h, cut, t, prefix, rest, source);
      SafeNamesIff(t, source, prefix, names[0], rest);
      assert [names[0]] + rest == names;
    }
  }

  lemma {:induction false} EntryPlanned(h: Hash, cut: Cut, t: Tree, prefix: Path, name: string, source: bool)
    requires IsTree(t) && |prefix| <= MAX_DEPTH && prefix + [name] in t
    ensures PlanEntry(h, cut, t, prefix, name, source).Some? <==> AllSafe(t, source, prefix, [name])
    decreases MAX_DEPTH - |prefix|, 0, 0
  {
    var path := prefix + [name];
    SafeEntryIff(t, source, prefix, name);
    if ValidRelative(Join(path)) {
      ValidDepth(t, path);
      if t[path].Dir? { DirPlanned(h, cut, t, path, source); } else { NothingBelowFile(t, source, path); }
    }
  }

  /** A tree has a plan exactly when every node the walk comes across is safe. */
  lemma PlannedIffSafe(h: Hash, cut: Cut, t: Tree, source: bool)
    requires IsTree(t)
    ensures PlanDir(h, cut, t, [], source).Some?
            <==> forall p :: p in t && Reached(source, p, 0) ==> SafeNode(t, source, p)
  {
    DirPlanned(h, cut, t, [], source);
    forall p ensures Meets(t, source, [], Listed(t, []), p) <==> p in t && Reached(source, p, 0) {
      if p in t {
        assert Placed(t, p);
        assert p[..0] == [];
        ChildIsListed(t, [], p);
      }
    }
  }

  // ----- the plan lists the tree -----

  lemma {:induction false} PlanDirLists(h: Hash, cut: Cut, t: Tree, prefix: Path, source: bool)
    requires IsTree(t) && |prefix| <= MAX_DEPTH && PlanDir(h, cut, t, prefix, source).Some?
    ensures Lists(h, t, source, prefix, Listed(t, prefix), PlanDir(h, cut, t, prefix, source).value.output)
    decreases MAX_DEPTH - |prefix|, 1, 0
  {
    PlanNamesLists(h, cut, t, prefix, Listed(t, prefix), source);
  }

  lemma {:induction false} PlanNamesLists(h: Hash, cut: Cut, t: Tree, prefix: Path, names: seq<string>, source: bool)
    requires IsTree(t) && |prefix| <= MAX_DEPTH && SortedNames(names)
    requires forall i :: 0 <= i < |names| ==> prefix + [names[i]] in t
    requires PlanNames(h, cut, t, prefix, names, source).Some?
    ensures Lists(h, t, source, prefix, names, PlanNames(h, cut, t, prefix, names, source).value.output)
    decreases MAX_DEPTH - |prefix|, 0, |names|
  {
    if names == [] {
      ListsNothing(h, t, source, prefix);
    } else {
      RestNames(t, prefix, names);
      PlanEntryLists(h, cut, t, prefix, names[0], source);
      PlanNamesLists(h, cut, t, prefix, names[1..], source);
      ListsJoin(h, t, source, prefix, names[0], names[1..], PlanEntry(h, cut, t, prefix, names[0], source).value.output,
                PlanNames(h, cut, t, prefix, names[1..], source).value.output);
    }
  }

  lemma {:induction false} PlanEntryLists(h: Hash, cut: Cut, t: Tree, prefix: Path, name: string, source: bool)
    requires IsTree(t) && |prefix| <= MAX_DEPTH && prefix + [name] in t
             && PlanEntry(h, cut, t, prefix, name, source).Some?
    ensures Lists(h, t, source, prefix, [name], PlanEntry(h, cut, t, prefix, name, source).value.output)
    decreases MAX_DEPTH - |prefix|, 0, 0
  {
    var path := prefix + [name];
    ValidDepth(t, path);
    if source && Excluded(Join(path)) {
      ListsExcluded(h, t, source, prefix, name);
    } else if t[path].Dir? {
      PlanDirLists(h, cut, t, path, source);
      ListsDir(h, t, source, prefix, name, PlanDir(h, cut, t, path, source).value.output);
    } else {
      ListsFile(h, t, source, prefix, name);
    }
  }

  /** With or without a budget, the plan is the list of the shown paths. */
  lemma PlanLists(h: Hash, cut: Cut, t: Tree, source: bool)
    requires IsTree(t) && PlanDir(h, cut, t, [], source).Some?
    ensures IsInventory(h, t, source, PlanDir(h, cut, t, [], source).value.output)
  {
    PlanDirLists(h, cut, t, [], source);
    ListsAll(h, t, source, PlanDir(h, cut, t, [], source).value.output);
  }

  // ----- what a whole tree costs -----

  function ReadsOf(cut: Cut, e: Entry): nat {
    if e.FileEntry? then |cut(e.path, e.size)| else 0
  }

  function ReadTotal(cut: Cut, es: seq<Entry>): nat {
    if es == [] then 0 else ReadsOf(cut, es[0]) + ReadTotal(cut, es[1..])
  }

  function ByteTotal(es: seq<Entry>): nat {
    if es == [] then 0 else SizeOf(es[0]) + ByteTotal(es[1..])
  }

  lemma {:induction false} TotalsConcat(cut: Cut, a: seq<Entry>, b: seq<Entry>)
    ensures ReadTotal(cut, a + b) == ReadTotal(cut, a) + ReadTotal(cut, b)
            && ByteTotal(a + b) == ByteTotal(a) + ByteTotal(b)
  {
    if a == [] {
      assert a + b == b;
    } else {
      assert (a + b)[1..] == a[1..] + b;
      TotalsConcat(cut, a[1..], b);
    }
  }

  /** Without exclusions everything charged is listed: `owed` names were charged ahead. */
  predicate Adds(cut: Cut, d: Progress, owed: nat) {
    d.bytes == ByteTotal(d.output) && d.entries + owed == |d.output| + ReadTotal(cut, d.output)
  }

  lemma {:induction false} DirAdds(h: Hash, cut: Cut, t: Tree, prefix: Path)
    requires IsTree(t) && |prefix| <= MAX_DEPTH
    ensures var d := PlanDir(h, cut, t, prefix, false); d.Some? ==> Adds(cut, d.value, 0)
    decreases MAX_DEPTH - |prefix|, 1, 0
  {
    var names := Listed(t, prefix);
    NamesAdd(h, cut, t, prefix, names);
  }

  lemma {:induction false} NamesAdd(h: Hash, cut: Cut, t: Tree, prefix: Path, names: seq<string>)
    requires IsTree(t) && |prefix| <= MAX_DEPTH && forall i :: 0 <= i < |names| ==> prefix + [names[i]] in t
    ensures var d := PlanNames(h, cut, t, prefix, names, false); d.Some? ==> Adds(cut, d.value, |names|)
    decreases MAX_DEPTH - |prefix|, 0, |names|
  {
    if names != [] {
      var rest := names[1..];
      assert forall i :: 0 <= i < |rest| ==> rest[i] == names[i + 1];
      EntryAdds(h, cut, t, prefix, names[0]);
      NamesAdd(h, cut, t, prefix, rest);
      var a, b := PlanEntry(h, cut, t, prefix, names[0], false), PlanNames(h, cut, t, prefix, rest, false);
      if a.Some? && b.Some? { TotalsConcat(cut, a.value.output, b.value.output); }
    }
  }

  lemma {:induction false} EntryAdds(h: Hash, cut: Cut, t: Tree, prefix: Path, name: string)
    requires IsTree(t) && |prefix| <= MAX_DEPTH && prefix + [name] in t
    ensures var d := PlanEntry(h, cut, t, prefix, name, false); d.Some? ==> Adds(cut, d.value, 1)
    decreases MAX_DEPTH - |prefix|, 0, 0
  {
    var path := prefix + [name];
    if ValidRelative(Join(path)) {
      ValidDepth(t, path);
      match t[path]
      case Other =>
      case Dir =>
        DirAdds(h, cut, t, path);
        var below := PlanDir(h, cut, t, path, false);
        if below.Some? { OneMoreEntry(cut, Progress([Directory(path)], 0, 0), below.value); }
      case File(bytes) => OneEntry(cut, FileEntry(path, |bytes|, h(bytes)));
    }
  }

  lemma OneMoreEntry(cut: Cut, own: Progress, below: Progress)
    requires |own.output| == 1 && own.output[0].Directory? && own.bytes == own.entries == 0 && Adds(cut, below, 0)
    ensures Adds(cut, Plus(own, below), 1)
  {
    TotalsConcat(cut, own.output, below.output);
    OneEntry(cut, own.output[0]);
    assert own.output == [own.output[0]];
  }

  lemma OneEntry(cut: Cut, e: Entry)
    ensures ReadTotal(cut, [e]) == ReadsOf(cut, e) && ByteTotal([e]) == SizeOf(e)
  {
    assert [e][1..] == [];
  }

  predicate AffordableBy(cut: Cut, es: seq<Entry>) {
    ByteTotal(es) <= 0x8000_0000 && |es| + ReadTotal(cut, es) <= 30000
  }

  /**
   However files are read: a whole tree is listed exactly when all its nodes are safe and its list, if
   there were no limits, would have at most 2 GiB and at most 30000 entries and reads together.
   */
  lemma RefusedExactlyWhen(h: Hash, cut: Cut, t: Tree)
    requires IsCut(cut) && IsTree(t)
    ensures InventoryBy(h, cut, t, false).Some?
       <==> && (forall p :: p in t ==> SafeNode(t, false, p))
            && var plan := PlanDir(h, cut, t, [], false); plan.Some? && AffordableBy(cut, plan.value.output)
  {
    OnlyTotalsMatter(h, cut, t, false);
    PlannedIffSafe(h, cut, t, false);
    DirAdds(h, cut, t, []);
  }

  /** Every tree of safe nodes has a list. */
  lemma SafeIsListed(h: Hash, t: Tree) returns (es: seq<Entry>)
    requires IsTree(t) && forall p :: p in t ==> SafeNode(t, false, p)
    ensures IsInventory(h, t, false, es)
  {
    PlannedIffSafe(h, Full, t, false);
    PlanLists(h, Full, t, false);
    es := PlanDir(h, Full, t, [], false).value.output;
  }

  /** For any list of a whole tree: it is the inventory exactly when the nodes are safe and the list is affordable. */
  lemma InventoryOfListBy(h: Hash, cut: Cut, t: Tree, es: seq<Entry>)
    requires IsCut(cut) && IsTree(t) && IsInventory(h, t, false, es)
    ensures InventoryBy(h, cut, t, false)
         == if (forall p :: p in t ==> SafeNode(t, false, p)) && AffordableBy(cut, es) then Some(es) else None
  {
    OnlyTotalsMatter(h, cut, t, false);
    PlannedIffSafe(h, cut, t, false);
    DirAdds(h, cut, t, []);
    var plan := PlanDir(h, cut, t, [], false);
    if plan.Some? {
      PlanLists(h, cut, t, false);
      SameList(h, t, es, plan.value.output);
    }
  }

  lemma SameList(h: Hash, t: Tree, a: seq<Entry>, b: seq<Entry>)
    requires IsInventory(h, t, false, a) && IsInventory(h, t, false, b)
    ensures a == b
  {
    forall p ensures Has(a, p) <==> Has(b, p) {
      assert Has(a, p) <==> p in t && Shown(false, p, 0);
      assert Has(b, p) <==> p in t && Shown(false, p, 0);
    }
    ListUnique(h, t, a, b);
  }

  // ----- full chunks and short reads -----

  /** How many chunks a file of this size is read in. */
  function Chunks(size: nat): nat {
    if size == 0 then 0 else 1 + Chunks(if size < 0x1_0000 then 0 else size - 0x1_0000)
  }

  function ChunkTotal(es: seq<Entry>): nat {
    if es == [] then 0 else Chunks(SizeOf(es[0])) + ChunkTotal(es[1..])
  }

  lemma {:induction false} ChunksBound(size: nat)
    ensures CHUNK * Chunks(size) < size + CHUNK
  {
    if size >= CHUNK { ChunksBound(size - CHUNK); } else if size > 0 { assert Chunks(0) == 0; }
  }

  lemma {:induction false} FullReadsAreChunks(size: nat)
    ensures |FullReads(size)| == Chunks(size)
  {
    if size >= CHUNK {
      FullReadsAreChunks(size - CHUNK);
    } else if size > 0 {
      assert FullReads(0) == [] && Chunks(0) == 0;
    }
  }

  lemma {:induction false} ReadsBound(parts: seq<nat>, size: nat)
    requires AreReads(parts, size)
    ensures size <= CHUNK * |parts|
  {
    if parts != [] { ReadsBound(parts[1..], size - parts[0]); }
  }

  /** No way of reading a file takes fewer reads than whole chunks. */
  lemma FullReadsAreFewest(parts: seq<nat>, size: nat)
    requires AreReads(parts, size)
    ensures |FullReads(size)| <= |parts|
  {
    ReadsBound(parts, size);
    ChunksBound(size);
    FullReadsAreChunks(size);
    assert CHUNK * Chunks(size) < CHUNK * (|parts| + 1);
    assert Chunks(size) < |parts| + 1;
  }

  lemma {:induction false} FullTotal(es: seq<Entry>)
    ensures ReadTotal(Full, es) == ChunkTotal(es)
  {
    if es != [] {
      FullTotal(es[1..]);
      FullReadsAreChunks(SizeOf(es[0]));
      assert Chunks(0) == 0;
    }
  }

  predicate Affordable(es: seq<Entry>) {
    ByteTotal(es) <= 0x8000_0000 && |es| + ChunkTotal(es) <= 30000
  }

  /** In particular with whole chunks. */
  lemma InventoryOfList(h: Hash, t: Tree, es: seq<Entry>)
    requires IsTree(t) && IsInventory(h, t, false, es)
    ensures Inventory(h, t, false)
            == if (forall p :: p in t ==> SafeNode(t, false, p)) && Affordable(es) then Some(es) else None
  {
    FullIsCut();
    FullTotal(es);
    InventoryOfListBy(h, Full, t, es);
  }

  /** The same list and the same bytes, at no less cost. */
  predicate CostsMore(a: Option<Progress>, b: Option<Progress>) {
    if a.None? then b.None?
    else b.Some? && a.value.output == b.value.output && a.value.bytes == b.value.bytes
         && a.value.entries >= b.value.entries
  }

  lemma {:induction false} DirCostsMore(h: Hash, cut: Cut, t: Tree, prefix: Path, source: bool)
    requires IsCut(cut) && IsTree(t) && |prefix| <= MAX_DEPTH
    ensures CostsMore(PlanDir(h, cut, t, prefix, source), PlanDir(h, Full, t, prefix, source))
    decreases MAX_DEPTH - |prefix|, 1, 0
  {
    NamesCostMore(h, cut, t, prefix, Listed(t, prefix), source);
  }

  lemma {:induction false} NamesCostMore(h: Hash, cut: Cut, t: Tree, prefix: Path, names: seq<string>, source: bool)
    requires IsCut(cut) && IsTree(t) && |prefix| <= MAX_DEPTH
             && forall i :: 0 <= i < |names| ==> prefix + [names[i]] in t
    ensures CostsMore(PlanNames(h, cut, t, prefix, names, source), PlanNames(h, Full, t, prefix, names, source))
    decreases MAX_DEPTH - |prefix|, 0, |names|
  {
    if names != [] {
      var rest := names[1..];
      assert forall i :: 0 <= i < |rest| ==> rest[i] == names[i + 1];
      EntryCostsMore(h, cut, t, prefix, names[0], source);
      NamesCostMore(h, cut, t, prefix, rest, source);
    }
  }

  lemma {:induction false} EntryCostsMore(h: Hash, cut: Cut, t: Tree, prefix: Path, name: string, source: bool)
    requires IsCut(cut) && IsTree(t) && |prefix| <= MAX_DEPTH && prefix + [name] in t
    ensures CostsMore(PlanEntry(h, cut, t, prefix, name, source), PlanEntry(h, Full, t, prefix, name, source))
    decreases MAX_DEPTH - |prefix|, 0, 0
  {
    var path := prefix + [name];
    if ValidRelative(Join(path)) {
      ValidDepth(t, path);
      match t[path]
      case Other =>
      case Dir => DirCostsMore(h, cut, t, path, source);
      case File(bytes) => FullReadsAreFewest(cut(path, |bytes|), |bytes|);
    }
  }

  /** Short reads change nothing in an inventory; they can only get it refused. */
  lemma ShortReadsOnlyRefuse(h: Hash, cut: Cut, t: Tree, source: bool)
    requires IsCut(cut) && IsTree(t)
    ensures InventoryBy(h, cut, t, source).Some? ==> InventoryBy(h, cut, t, source) == Inventory(h, t, source)
  {
    FullIsCut();
    OnlyTotalsMatter(h, cut, t, source);
    OnlyTotalsMatter(h, Full, t, source);
    DirCostsMore(h, cut, t, [], source);
  }
}
