/**
 That a publication can be completed: with the source left alone and room for the owner's marker in
 the budget, some run of the steps ends with the new tree in place.
 */
module GuiLiveness {
  import opened Outcome
  import opened Ordering
  import opened GuiInventory
  import opened GuiBudget
  import opened GuiPublish

  // ----- the marker in the list -----

  lemma {:induction false} WithoutOwnerInOrder(es: seq<Entry>)
    requires InOrder(es)
    ensures InOrder(WithoutOwner(es))
  {
    if es != [] {
      RestHas(es, es[0].path);
      WithoutOwnerInOrder(es[1..]);
      var rest := WithoutOwner(es[1..]);
      if es[0].path != MARKER {
        forall i | 0 <= i < |rest| ensures PathLess(es[0].path, rest[i].path) {
          WithoutOwnerFrom(es[1..], i);
          var j :| 0 <= j < |es[1..]| && es[1..][j] == rest[i];
          assert es[j + 1] == rest[i];
        }
        OrderConcat([es[0]], rest);
      }
    }
  }

  /** The marker changes nothing else in the list of a tree. */
  lemma ListTransparent(job: Job, t: Tree, es: seq<Entry>, fs: seq<Entry>)
    requires MARKER !in t && IsInventory(job.platform.hash, t, false, es)
             && IsInventory(job.platform.hash, Marked(job, t), false, fs)
    ensures WithoutOwner(fs) == es
  {
    var h := job.platform.hash;
    WithoutOwnerInOrder(fs);
    assert (forall q :: Has(es, q) <==> q in t) && forall q :: Has(fs, q) <==> q in Marked(job, t);
    forall p ensures Has(WithoutOwner(fs), p) <==> Has(es, p) { MarkedHas(job, t, es, fs, p); }
    forall i | 0 <= i < |WithoutOwner(fs)| ensures Matches(h, t, WithoutOwner(fs)[i]) {
      WithoutOwnerFrom(fs, i);
      assert Matches(h, Marked(job, t), WithoutOwner(fs)[i]);
    }
    ListUnique(h, t, WithoutOwner(fs), es);
  }

  /** The marker changes nothing else in the inventory. */
  lemma MarkerIsTransparent(job: Job, t: Tree)
    requires IsTree(t) && MARKER !in t && IsTree(Marked(job, t))
    requires Inventory(job.platform.hash, t, false).Some? && Inventory(job.platform.hash, Marked(job, t), false).Some?
    ensures WithoutOwner(Inventory(job.platform.hash, Marked(job, t), false).value)
            == Inventory(job.platform.hash, t, false).value
  {
    var h := job.platform.hash;
    InventoryLists(h, t, false);
    InventoryLists(h, Marked(job, t), false);
    ListTransparent(job, t, Inventory(h, t, false).value, Inventory(h, Marked(job, t), false).value);
  }

  lemma MarkedHas(job: Job, t: Tree, es: seq<Entry>, fs: seq<Entry>, p: Path)
    requires MARKER !in t && (forall q :: Has(es, q) <==> q in t) && forall q :: Has(fs, q) <==> q in Marked(job, t)
    ensures Has(WithoutOwner(fs), p) <==> Has(es, p)
  {
    assert Has(es, p) <==> p in t;
    if p != MARKER {
      WithoutOwnerKeeps(fs, p);
      assert Has(fs, p) <==> p in Marked(job, t);
    } else if Has(WithoutOwner(fs), p) {
      var i :| 0 <= i < |WithoutOwner(fs)| && WithoutOwner(fs)[i].path == p;
      WithoutOwnerFrom(fs, i);
    }
  }

  function Marked(job: Job, t: Tree): Tree {
    t[MARKER := File(Marker(job))]
  }

  // ----- room for the marker -----

  predicate GoodText(s: string) {
    forall i :: 0 <= i < |s| ==> s[i] as int < 128 && s[i] != '\\' && !IsControl(s[i]) && s[i] != ':' && s[i] != '/'
  }

  /** A single plain name is a valid path. */
  lemma PlainNameIsValid(name: string)
    requires GoodText(name) && 3 <= |name| <= 255
    ensures ValidRelative(Join([name]))
  {
    SplitName('/', name);
  }

  lemma GoodConcat(a: string, b: string)
    requires GoodText(a) && GoodText(b)
    ensures GoodText(a + b)
  {
  }

  lemma MarkerIsValid(name: string)
    requires name == OWNER
    ensures ValidRelative(Join([name])) && '/' !in name
  {
    var a, b, c, d := ".refac", "t-gui-", "owner.", "json";
    assert GoodText(a);
    assert GoodText(b);
    assert GoodText(c);
    assert GoodText(d);
    GoodConcat(a, b);
    GoodConcat(c, d);
    GoodConcat(a + b, c + d);
    assert name == (a + b) + (c + d);
    PlainNameIsValid(name);
  }

  lemma {:induction false} WithoutOwnerUnchanged(es: seq<Entry>)
    requires !Has(es, MARKER)
    ensures WithoutOwner(es) == es
  {
    if es != [] {
      assert es[0].path != MARKER;
      HasConcat([es[0]], es[1..], MARKER);
      assert [es[0]] + es[1..] == es;
      WithoutOwnerUnchanged(es[1..]);
    }
  }

  /** Taking the marker's entry out of a list takes exactly its share of the totals. */
  lemma {:induction false} OwnerShare(es: seq<Entry>, size: nat)
    requires InOrder(es) && Has(es, MARKER)
             && forall i :: 0 <= i < |es| && es[i].path == MARKER ==> SizeOf(es[i]) == size
    ensures |es| == |WithoutOwner(es)| + 1
    ensures ByteTotal(es) == ByteTotal(WithoutOwner(es)) + size
            && ChunkTotal(es) == ChunkTotal(WithoutOwner(es)) + Chunks(size)
  {
    var rest := es[1..];
    RestHas(es, MARKER);
    if es[0].path == MARKER {
      WithoutOwnerUnchanged(rest);
    } else {
      assert forall i :: 0 <= i < |rest| ==> rest[i] == es[i + 1];
      OwnerShare(rest, size);
      TotalsCons(es[0], WithoutOwner(rest));
    }
  }

  lemma TotalsCons(e: Entry, es: seq<Entry>)
    ensures ByteTotal([e] + es) == SizeOf(e) + ByteTotal(es)
            && ChunkTotal([e] + es) == Chunks(SizeOf(e)) + ChunkTotal(es)
  {
    assert ([e] + es)[1..] == es;
  }

  /** The list of a tree with its marker, made from the list of the tree. */
  lemma MarkedTotals(job: Job, t: Tree, es: seq<Entry>, fs: seq<Entry>)
    requires MARKER !in t && IsInventory(job.platform.hash, t, false, es)
             && IsInventory(job.platform.hash, Marked(job, t), false, fs)
    ensures Affordable(fs) <==> HasRoom(es, |Marker(job)|)
  {
    ListTransparent(job, t, es, fs);
    assert Has(fs, MARKER) <==> MARKER in Marked(job, t) && Shown(false, MARKER, 0);
    forall i | 0 <= i < |fs| && fs[i].path == MARKER ensures SizeOf(fs[i]) == |Marker(job)| {
      assert Matches(job.platform.hash, Marked(job, t), fs[i]);
    }
    OwnerShare(fs, |Marker(job)|);
  }

  /** The totals leave room for one more file of this size. */
  predicate HasRoom(es: seq<Entry>, size: nat) {
    ByteTotal(es) + size <= 0x8000_0000 && |es| + ChunkTotal(es) + 1 + Chunks(size) <= 30000
  }

  /**
   The marked tree is listed exactly when the marker is no larger than a file may be and the totals
   have room for it.
   */
  lemma MarkerFits(job: Job, t: Tree)
    requires IsTree(t) && MARKER !in t && Inventory(job.platform.hash, t, false).Some?
    ensures IsTree(Marked(job, t))
    ensures Inventory(job.platform.hash, Marked(job, t), false).Some?
       <==> |Marker(job)| <= MAX_FILE && HasRoom(Inventory(job.platform.hash, t, false).value, |Marker(job)|)
  {
    var h, m := job.platform.hash, Marked(job, t);
    var es := Inventory(h, t, false).value;
    MarkKeepsTree(job, t);
    InventoryLists(h, t, false);
    InventoryOfList(h, t, es);
    MarkedIsSafe(job, t);
    if |Marker(job)| <= MAX_FILE {
      var fs := SafeIsListed(h, m);
      MarkedTotals(job, t, es, fs);
      InventoryOfList(h, m, fs);
    } else {
      FullIsCut();
      RefusedExactlyWhen(h, Full, m);
    }
  }

  lemma MarkedIsSafe(job: Job, t: Tree)
    requires MARKER !in t && forall p :: p in t ==> SafeNode(t, false, p)
    ensures (forall p :: p in Marked(job, t) ==> SafeNode(Marked(job, t), false, p)) <==> |Marker(job)| <= MAX_FILE
  {
    var m := Marked(job, t);
    MarkerIsValid(OWNER);
    assert SafeNode(m, false, MARKER) <==> |Marker(job)| <= MAX_FILE;
    forall p | p in t ensures SafeNode(m, false, p) { assert SafeNode(t, false, p) && m[p] == t[p]; }
    assert MARKER in m;
  }

  // ----- nothing stands in the way of an undisturbed publication -----

  /** Some run ends in `w`. */
  ghost predicate CanReach(job: Job, w: World) {
    exists worlds, steps :: IsRun(job, worlds, steps) && worlds[|steps|] == w
  }

  lemma ReachNext(job: Job, w: World, step: Step, w': World)
    requires CanReach(job, w) && Next(job, w, step, w')
    ensures CanReach(job, w')
  {
    var worlds, steps :| IsRun(job, worlds, steps) && worlds[|steps|] == w;
    var worlds', steps' := worlds + [w'], steps + [step];
    forall i | 0 <= i < |steps'| ensures StepAt(job, worlds', steps', i) {
      if i < |steps| { assert StepAt(job, worlds, steps, i); }
    }
    assert IsRun(job, worlds', steps') && worlds'[|steps'|] == w';
  }

  function AtStage(job: Job, source: Tree, k: nat, stage: Option<Tree>): World {
    World(Staging(k), source, false, stage, job.prior, None)
  }

  function AtStart(job: Job, source: Tree): World {
    World(Starting, source, false, None, job.prior, None)
  }

  lemma CanStart(job: Job, source: Tree)
    requires IsTree(source) && (job.prior.Some? ==> IsTree(job.prior.value))
    ensures CanReach(job, AtStart(job, source))
  {
    var none: seq<Step> := [];
    var worlds := [AtStart(job, source)];
    assert IsRun(job, worlds, none) && worlds[|none|] == AtStart(job, source);
  }

  lemma CanBegin(job: Job, source: Tree)
    requires CanReach(job, AtStart(job, source)) && Complete(job.manifest) && PriorMayGo(job, AtStart(job, source))
    ensures CanReach(job, AtStage(job, source, 0, Some(map[])))
  {
    ReachNext(job, AtStart(job, source), Begin, AtStage(job, source, 0, Some(map[])));
  }

  lemma CanPlace(job: Job, source: Tree, k: nat, stage: Tree, stage': Tree)
    requires CanReach(job, AtStage(job, source, k, Some(stage))) && k < |job.manifest|
    requires Place(job.platform.hash, source, job.manifest[k], stage) == Some(stage')
    ensures CanReach(job, AtStage(job, source, k + 1, Some(stage')))
  {
    ReachNext(job, AtStage(job, source, k, Some(stage)), PlaceNext, AtStage(job, source, k + 1, Some(stage')));
  }

  lemma {:induction false} StagingGoesThrough(job: Job, source: Tree, k: nat)
    requires IsTree(source) && IsInventory(job.platform.hash, source, false, job.manifest) && k <= |job.manifest|
    requires CanReach(job, AtStage(job, source, 0, Some(map[])))
    ensures CanReach(job, AtStage(job, source, k, Some(Part(source, job.manifest[..k]))))
  {
    var es := job.manifest;
    if k == 0 {
      assert Part(source, es[..0]) == map[];
    } else {
      StagingGoesThrough(job, source, k - 1);
      CanPlaceNext(job, source, k - 1);
    }
  }

  lemma CanPlaceNext(job: Job, source: Tree, k: nat)
    requires IsTree(source) && IsInventory(job.platform.hash, source, false, job.manifest) && k < |job.manifest|
    requires CanReach(job, AtStage(job, source, k, Some(Part(source, job.manifest[..k]))))
    ensures CanReach(job, AtStage(job, source, k + 1, Some(Part(source, job.manifest[..k + 1]))))
  {
    PlaceGrows(job.platform.hash, source, job.manifest, k);
    CanPlace(job, source, k, Part(source, job.manifest[..k]), Part(source, job.manifest[..k + 1]));
  }

  lemma CanCompare(job: Job, source: Tree)
    requires IsTree(source) && Inventory(job.platform.hash, source, false) == Some(job.manifest)
    requires CanReach(job, AtStage(job, source, |job.manifest|, Some(source)))
    ensures CanReach(job, AtStage(job, source, 0, Some(source)).(phase := Marking))
  {
    ReachNext(job, AtStage(job, source, |job.manifest|, Some(source)), Compare,
        AtStage(job, source, 0, Some(source)).(phase := Marking));
  }

  lemma CanMark(job: Job, source: Tree)
    requires MARKER !in source && CanReach(job, AtStage(job, source, 0, Some(source)).(phase := Marking))
    ensures CanReach(job, AtStage(job, source, 0, Some(Marked(job, source))).(phase := Authorizing))
  {
    ReachNext(job, AtStage(job, source, 0, Some(source)).(phase := Marking), Mark,
              AtStage(job, source, 0, Some(Marked(job, source))).(phase := Authorizing));
  }

  lemma CanAuthorize(job: Job, source: Tree, stage: Tree)
    requires CanReach(job, AtStage(job, source, 0, Some(stage)).(phase := Authorizing)) && IsTree(stage)
    requires job.prior.Some? ==> IsTree(job.prior.value) && ValidateExisting(job, job.prior.value)
    requires Inventory(job.platform.hash, stage, false).Some?
             && WithoutOwner(Inventory(job.platform.hash, stage, false).value) == job.manifest
    ensures CanReach(job, AtStage(job, source, 0, Some(stage)).(phase := Swapping))
  {
    ReachNext(job, AtStage(job, source, 0, Some(stage)).(phase := Authorizing), Authorize,
              AtStage(job, source, 0, Some(stage)).(phase := Swapping));
  }

  /** A complete manifest has no entry for the marker. */
  lemma MarkerIsFree(job: Job, source: Tree)
    requires Complete(job.manifest) && IsInventory(job.platform.hash, source, false, job.manifest)
    ensures MARKER !in source
  {
    forall i | 0 <= i < |job.manifest| ensures job.manifest[i].path != MARKER {
      assert SafeEntry(job.manifest[i]);
      assert OWNER in MARKER by { assert MARKER[0] == OWNER; }
    }
    assert Has(job.manifest, MARKER) <==> MARKER in source && Shown(false, MARKER, 0);
  }

  /** With the source left alone, no error, and room for the marker, the publication can be completed. */
  lemma PublicationCanSucceed(job: Job, source: Tree)
    requires IsTree(source) && (job.prior.Some? ==> IsTree(job.prior.value) && ValidateExisting(job, job.prior.value))
    requires Complete(job.manifest) && Inventory(job.platform.hash, source, false) == Some(job.manifest)
    requires |Marker(job)| <= MAX_FILE && HasRoom(job.manifest, |Marker(job)|)
    ensures exists w :: CanReach(job, w) && w.phase.Done?
  {
    CanStart(job, source);
    CanBegin(job, source);
    InventoryLists(job.platform.hash, source, false);
    MarkerIsFree(job, source);
    MarkerFits(job, source);
    StagingGoesThrough(job, source, |job.manifest|);
    WholePart(job.platform.hash, source, job.manifest);
    CanCompare(job, source);
    CanMark(job, source);
    MarkerIsTransparent(job, source);
    CanAuthorize(job, source, Marked(job, source));
    CanFinish(job, AtStage(job, source, 0, Some(Marked(job, source))).(phase := Swapping));
  }

  lemma WholePart(h: Hash, t: Tree, es: seq<Entry>)
    requires IsInventory(h, t, false, es)
    ensures Part(t, es[..|es|]) == t
  {
    assert es[..|es|] == es;
    assert forall p :: Has(es, p) <==> p in t;
  }

  lemma CanFinish(job: Job, w: World)
    requires CanReach(job, w) && w.phase.Swapping? && w.destination == job.prior && w.backup == None
    ensures exists w' :: CanReach(job, w') && w'.phase.Done?
  {
    if job.prior.None? {
      var w' := w.(stage := None, destination := w.stage, phase := Done);
      ReachNext(job, w, MoveIn, w');
    } else if job.linux {
      var w' := w.(stage := w.destination, destination := w.stage, phase := Done);
      ReachNext(job, w, Exchange, w');
    } else {
      CanMoveAway(job, w);
    }
  }

  lemma CanMoveAway(job: Job, w: World)
    requires CanReach(job, w) && w.phase.Swapping? && !job.linux && job.prior.Some? && w.backup == None
    ensures exists w' :: CanReach(job, w') && w'.phase.Done?
  {
    var away := w.(backup := w.destination, destination := None, phase := Moved);
    ReachNext(job, w, MoveAway, away);
    CanMoveIn(job, away);
  }

  lemma CanMoveIn(job: Job, w: World)
    requires CanReach(job, w) && w.phase.Moved? && w.destination == None
    ensures exists w' :: CanReach(job, w') && w'.phase.Done?
  {
    var w' := w.(stage := None, destination := w.stage, phase := Done);
    ReachNext(job, w, MoveInPlace, w');
  }
}
