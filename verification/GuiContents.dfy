/**
 What is in a published GUI and what a publication may replace, in terms of files and names: the
 four entry points are there, every path is a plain one, and only an intact earlier publication of
 the same engine gives way, or a foreign directory where that was allowed.
 */
module GuiContents {
  import opened Outcome
  import opened Ordering
  import opened GuiInventory
  import opened GuiPublish
  import opened GuiLiveness

  // ----- paths -----

  predicate IsPlainName(s: string) {
    && 1 <= |s| <= 255 && s != "." && s != ".."
    && forall i :: 0 <= i < |s| ==> ' ' <= s[i] <= '~' && s[i] != '/' && s[i] != '\\' && s[i] != ':'
  }

  predicate IsPlainPath(p: Path) {
    1 <= |p| <= 48 && |Join(p)| <= 1024 && forall i :: 0 <= i < |p| ==> IsPlainName(p[i])
  }

  lemma {:induction false} CharsOfJoin(p: Path, c: char)
    requires p != []
    ensures c in Join(p) <==> (|p| > 1 && c == '/') || exists i :: 0 <= i < |p| && c in p[i]
  {
    if |p| > 1 {
      CharsOfJoin(p[1..], c);
      if i :| 0 <= i < |p[1..]| && c in p[1..][i] { assert c in p[i + 1]; }
      if i :| 0 <= i < |p| && c in p[i] && i > 0 { assert c in p[1..][i - 1]; }
    }
  }

  predicate IsAllowed(c: char) {
    c as int < 128 && c != '\\' && !IsControl(c) && c != ':'
  }

  lemma AllowedJoin(p: Path)
    requires p != [] && forall i :: 0 <= i < |p| ==> '/' !in p[i]
    ensures (forall k :: 0 <= k < |Join(p)| ==> IsAllowed(Join(p)[k]))
       <==> forall i, k :: 0 <= i < |p| && 0 <= k < |p[i]| ==> IsAllowed(p[i][k])
  {
    if forall i, k :: 0 <= i < |p| && 0 <= k < |p[i]| ==> IsAllowed(p[i][k]) {
      forall k | 0 <= k < |Join(p)| ensures IsAllowed(Join(p)[k]) {
        CharsOfJoin(p, Join(p)[k]);
      }
    }
    if forall k :: 0 <= k < |Join(p)| ==> IsAllowed(Join(p)[k]) {
      forall i, k | 0 <= i < |p| && 0 <= k < |p[i]| ensures IsAllowed(p[i][k]) {
        CharsOfJoin(p, p[i][k]);
        var j :| 0 <= j < |Join(p)| && Join(p)[j] == p[i][k];
      }
    }
  }

  lemma TextParts(path: string, parts: Path)
    requires SplitOn('/', path) == parts
    ensures ValidRelative(path)
       <==> && path != "" && |path| <= 1024 && (forall k :: 0 <= k < |path| ==> IsAllowed(path[k])) && |parts| <= 48
            && forall i :: 0 <= i < |parts| ==> parts[i] !in ["", ".", ".."] && |parts[i]| <= 255
  {
  }

  lemma PlainNameIs(s: string)
    requires '/' !in s
    ensures IsPlainName(s) <==> s !in ["", ".", ".."] && |s| <= 255 && forall k :: 0 <= k < |s| ==> IsAllowed(s[k])
  {
    if IsPlainName(s) {
      forall k | 0 <= k < |s| ensures IsAllowed(s[k]) { assert ' ' <= s[k] <= '~'; }
    }
    if forall k :: 0 <= k < |s| ==> IsAllowed(s[k]) {
      forall k | 0 <= k < |s| ensures ' ' <= s[k] <= '~' && s[k] != '/' && s[k] != '\\' && s[k] != ':' {
        assert IsAllowed(s[k]);
      }
    }
  }

  /** The text of a path is accepted exactly when the path is plain. */
  lemma ValidPathIs(p: Path)
    requires p != [] && forall i :: 0 <= i < |p| ==> '/' !in p[i]
    ensures ValidRelative(Join(p)) <==> IsPlainPath(p)
  {
    SplitJoin(p);
    AllowedJoin(p);
    TextParts(Join(p), p);
    forall i | 0 <= i < |p|
      ensures IsPlainName(p[i])
         <==> p[i] !in ["", ".", ".."] && |p[i]| <= 255 && forall k :: 0 <= k < |p[i]| ==> IsAllowed(p[i][k])
    {
      PlainNameIs(p[i]);
    }
    assert IsPlainPath(p) ==> Join(p) != "";
  }

  // ----- what a finished publication holds -----

  predicate HasFile(t: Tree, name: string) {
    [name] in t && t[[name]].File? && t[[name]].bytes != []
  }

  /** Once begun, a publication has passed its checks. */
  lemma {:induction false} BegunIsChecked(job: Job, worlds: seq<World>, steps: seq<Step>, n: nat)
    requires IsRun(job, worlds, steps) && n < |worlds| && !worlds[n].phase.Starting? && !worlds[n].phase.Refused?
    ensures Complete(job.manifest)
    ensures job.prior.Some? ==> IsTree(job.prior.value) && ValidateExisting(job, job.prior.value)
  {
    var m := n - 1;
    assert StepAt(job, worlds, steps, m);
    if worlds[m].phase.Starting? {
      RunKeepsInv(job, worlds, steps, m);
      CheckStep(job, worlds[m], steps[m], worlds[n]);
    } else {
      RefusedStays(job, worlds[m], steps[m], worlds[n]);
      BegunIsChecked(job, worlds, steps, m);
    }
  }

  lemma CheckStep(job: Job, w: World, step: Step, w': World)
    requires Next(job, w, step, w') && w.phase.Starting? && !w'.phase.Starting? && !w'.phase.Refused?
    requires PriorKept(job, w)
    ensures Complete(job.manifest)
    ensures job.prior.Some? ==> IsTree(job.prior.value) && ValidateExisting(job, job.prior.value)
  {
  }

  lemma RefusedStays(job: Job, w: World, step: Step, w': World)
    requires Next(job, w, step, w') && !w'.phase.Refused?
    ensures !w.phase.Refused?
  {
  }

  lemma ProvidedIsThere(job: Job, t: Tree, name: string)
    requires IsPublished(job, t) && Provides(job.manifest, name)
    ensures HasFile(t, name)
  {
    PublishedHolds(job, t);
    var i :| 0 <= i < |job.manifest| && job.manifest[i].FileEntry? && job.manifest[i].path == [name]
      && job.manifest[i].size > 0;
    assert Matches(job.platform.hash, t, job.manifest[i]);
  }

  lemma ListedIsPlain(job: Job, i: nat)
    requires Complete(job.manifest) && i < |job.manifest|
    ensures IsPlainPath(job.manifest[i].path)
  {
    var p := job.manifest[i].path;
    assert SafeEntry(job.manifest[i]);
    forall k | 0 <= k < |p| ensures '/' !in p[k] { SplitHasNoSlash(Join(p), k); }
    ValidPathIs(p);
  }

  lemma NameIsPlain(p: Path, name: string)
    requires p == [name] && ValidRelative(Join(p)) && '/' !in name
    ensures IsPlainPath(p)
  {
    ValidPathIs(p);
  }

  /** A finished publication has all four entry points, none of them empty, and plain paths only. */
  lemma DoneIsUsable(job: Job, worlds: seq<World>, steps: seq<Step>, n: nat)
    requires IsRun(job, worlds, steps) && n < |worlds| && worlds[n].phase.Done?
    ensures worlds[n].destination.Some?
    ensures var t := worlds[n].destination.value;
            && HasFile(t, "index.js") && HasFile(t, "index.umd.cjs") && HasFile(t, "style.css")
            && HasFile(t, "index.d.ts") && forall p :: p in t ==> IsPlainPath(p)
  {
    DonePublishes(job, worlds, steps, n);
    BegunIsChecked(job, worlds, steps, n);
    var t := worlds[n].destination.value;
    ProvidedIsThere(job, t, "index.js");
    ProvidedIsThere(job, t, "index.umd.cjs");
    ProvidedIsThere(job, t, "style.css");
    ProvidedIsThere(job, t, "index.d.ts");
    forall p | p in t ensures IsPlainPath(p) {
      if p == MARKER {
        MarkerIsValid(p[0]);
        NameIsPlain(p, p[0]);
      } else {
        var i :| 0 <= i < |job.manifest| && job.manifest[i].path == p;
        ListedIsPlain(job, i);
      }
    }
  }

  lemma PlacingKeepsMatch(h: Hash, src: Tree, e: Entry, stage: Tree, f: Entry)
    requires Place(h, src, e, stage).Some?
    ensures Matches(h, Place(h, src, e, stage).value, e)
    ensures Matches(h, stage, f) ==> Matches(h, Place(h, src, e, stage).value, f)
  {
  }

  /** Whatever becomes of the source meanwhile, all that was staged so far is what the manifest says. */
  lemma {:induction false} StagedMatches(job: Job, worlds: seq<World>, steps: seq<Step>, n: nat, i: nat)
    requires IsRun(job, worlds, steps) && n < |worlds| && worlds[n].phase.Staging? && i < worlds[n].phase.k
    ensures i < |job.manifest| && worlds[n].stage.Some?
    ensures Matches(job.platform.hash, worlds[n].stage.value, job.manifest[i])
  {
    var m := n - 1;
    assert StepAt(job, worlds, steps, m);
    StagingStep(job, worlds[m], steps[m], worlds[n]);
    if i < worlds[m].phase.k { StagedMatches(job, worlds, steps, m, i); }
    if steps[m].PlaceNext? {
      PlacingKeepsMatch(job.platform.hash, worlds[m].source, job.manifest[worlds[m].phase.k], worlds[m].stage.value,
                        job.manifest[i]);
    }
  }

  lemma StagingStep(job: Job, w: World, step: Step, w': World)
    requires Next(job, w, step, w') && w'.phase.Staging? && w'.phase.k > 0
    ensures w.phase.Staging?
    ensures if step.PlaceNext? then w'.phase.k == w.phase.k + 1 else w'.phase == w.phase && w'.stage == w.stage
  {
  }

  // ----- what may be replaced -----

  /** The engine's own marker, and beside it just the files the marker speaks of. */
  ghost predicate IsIntactOwn(job: Job, t: Tree) {
    && MARKER in t && t[MARKER].File? && |t[MARKER].bytes| <= 0x100_0000
    && var owner := job.platform.decode(t[MARKER].bytes);
    && owner.Some? && owner.value.schema == 1 && owner.value.engineSha256 == job.engine
    && (forall p :: p in t <==> p == MARKER || Has(owner.value.artifacts, p))
    && forall i :: 0 <= i < |owner.value.artifacts| ==> Matches(job.platform.hash, t, owner.value.artifacts[i])
  }

  ghost predicate MayReplace(job: Job, t: Tree) {
    && (if MARKER in t then IsIntactOwn(job, t) else job.allowLegacy)
    && forall p :: p in t ==> !t[p].Other?
  }

  lemma ListedIsNotOther(job: Job, t: Tree, listed: seq<Entry>, p: Path)
    requires IsInventory(job.platform.hash, t, false, listed) && p in t
    ensures !t[p].Other?
  {
    assert Has(listed, p);
    var i :| 0 <= i < |listed| && listed[i].path == p;
    assert Matches(job.platform.hash, t, listed[i]);
  }

  lemma ValidatedMayGo(job: Job, t: Tree)
    requires IsTree(t) && ValidateExisting(job, t)
    ensures MayReplace(job, t)
  {
    InventoryLists(job.platform.hash, t, false);
    var listed := Inventory(job.platform.hash, t, false).value;
    forall p | p in t ensures !t[p].Other? { ListedIsNotOther(job, t, listed, p); }
    if MARKER in t { OwnIsIntact(job, t, listed); }
  }

  lemma OwnIsIntact(job: Job, t: Tree, listed: seq<Entry>)
    requires IsTree(t) && ValidateExisting(job, t) && MARKER in t && IsInventory(job.platform.hash, t, false, listed)
    requires Inventory(job.platform.hash, t, false) == Some(listed)
    ensures IsIntactOwn(job, t)
  {
    var artifacts := WithoutOwner(listed);
    forall p ensures p in t <==> p == MARKER || Has(artifacts, p) {
      assert Has(listed, p) <==> p in t;
      if p != MARKER { WithoutOwnerKeeps(listed, p); }
    }
    forall i | 0 <= i < |artifacts| ensures Matches(job.platform.hash, t, artifacts[i]) { WithoutOwnerFrom(listed, i); }
  }

  /** Nothing is moved out of the way but an intact publication of this engine, or by permission a foreign one. */
  lemma OnlyOwnIsReplaced(job: Job, worlds: seq<World>, steps: seq<Step>, n: nat)
    requires IsRun(job, worlds, steps) && n < |worlds| && job.prior.Some?
    ensures worlds[n].destination != job.prior ==> MayReplace(job, job.prior.value)
  {
    RunKeepsInv(job, worlds, steps, n);
    if worlds[n].destination != job.prior { ReplacedWasChecked(job, worlds, steps, n); }
  }

  lemma {:induction false} ReplacedWasChecked(job: Job, worlds: seq<World>, steps: seq<Step>, n: nat)
    requires IsRun(job, worlds, steps) && n < |worlds| && job.prior.Some? && worlds[n].destination != job.prior
    ensures MayReplace(job, job.prior.value)
  {
    var m := n - 1;
    assert StepAt(job, worlds, steps, m);
    if worlds[m].destination != job.prior {
      ReplacedWasChecked(job, worlds, steps, m);
    } else {
      MovingStep(job, worlds[m], steps[m], worlds[n]);
      BegunIsChecked(job, worlds, steps, m);
      ValidatedMayGo(job, job.prior.value);
    }
  }

  lemma MovingStep(job: Job, w: World, step: Step, w': World)
    requires Next(job, w, step, w') && w'.destination != w.destination
    ensures !w.phase.Starting? && !w.phase.Refused?
  {
  }

  /** It is looked at twice: before anything is staged, and again before anything is moved. */
  lemma CheckedTwice(job: Job, worlds: seq<World>, steps: seq<Step>, n: nat)
    requires IsRun(job, worlds, steps) && n < |steps| && (steps[n].Begin? || steps[n].Authorize?) && job.prior.Some?
    ensures worlds[n].destination.Some? && MayReplace(job, worlds[n].destination.value)
  {
    assert StepAt(job, worlds, steps, n);
    ValidatedMayGo(job, worlds[n].destination.value);
  }
}
