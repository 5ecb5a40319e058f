/**
 Publishing a built GUI: the manifest is staged in a private directory, checked, marked with its
 owner and moved to the destination, where an earlier publication may lie. Every file operation is
 a step, any step may fail or be the last, and the source tree may change between any two steps.
 */
module GuiPublish {
  import opened Outcome
  import opened Ordering
  import opened GuiInventory

  datatype Owner = Owner(schema: nat, engineSha256: string, artifacts: seq<Entry>)

  datatype Platform = Platform(hash: Hash, encode: Owner -> Bytes, decode: Bytes -> Option<Owner>)

  /** One publication: `engine` is the digest of the engine's path, `prior` what is at the destination. */
  datatype Job = Job(platform: Platform, linux: bool, engine: string, allowLegacy: bool, manifest: seq<Entry>,
                     prior: Option<Tree>)

  const OWNER: string := ".refact-gui-owner.json"
  const MARKER: Path := [OWNER]
  const MAX_JSON: nat := 16 * 1024 * 1024

  // ----- checks -----

  predicate Provides(es: seq<Entry>, name: string) {
    exists i :: 0 <= i < |es| && es[i].FileEntry? && es[i].path == [name] && es[i].size > 0
  }

  /** The components are those of the path's text, which is safe and not reserved. */
  predicate SafeEntry(e: Entry) {
    && e.path != [] && SplitOn('/', Join(e.path)) == e.path
    && ValidRelative(Join(e.path)) && OWNER !in e.path
    && (e.FileEntry? ==> e.size <= MAX_FILE && IsDigest(e.sha256))
  }

  predicate Complete(es: seq<Entry>) {
    && |es| <= MAX_ENTRIES
    && Provides(es, "index.js") && Provides(es, "index.umd.cjs") && Provides(es, "style.css")
       && Provides(es, "index.d.ts")
    && forall i {:trigger SafeEntry(es[i])} :: 0 <= i < |es| ==> SafeEntry(es[i])
  }

  function WithoutOwner(es: seq<Entry>): seq<Entry> {
    if es == [] then []
    else if es[0].path == MARKER then WithoutOwner(es[1..])
    else [es[0]] + WithoutOwner(es[1..])
  }

  /** What is at the destination may be replaced: it is intact and this engine's own, or legacy is allowed. */
  predicate ValidateExisting(job: Job, t: Tree)
    requires IsTree(t)
  {
    var listed := Inventory(job.platform.hash, t, false);
    if MARKER in t then
      && t[MARKER].File? && |t[MARKER].bytes| <= MAX_JSON
      && var owner := job.platform.decode(t[MARKER].bytes);
      && owner.Some? && owner.value.schema == 1 && owner.value.engineSha256 == job.engine
      && listed.Some? && WithoutOwner(listed.value) == owner.value.artifacts
    else
      job.allowLegacy && listed.Some?
  }

  function Marker(job: Job): Bytes {
    job.platform.encode(Owner(1, job.engine, job.manifest))
  }

  // ----- the steps -----

  datatype Phase = Starting | Staging(k: nat) | Marking | Authorizing | Swapping | Moved | RollingBack | Done | Refused

  /** `touched` records that the source was changed by someone else. */
  datatype World = World(phase: Phase, source: Tree, touched: bool, stage: Option<Tree>, destination: Option<Tree>,
                         backup: Option<Tree>)

  datatype Step = Begin | PlaceNext | Compare | Mark | Authorize | Exchange | MoveIn | MoveAway | MoveInPlace | FailMove
                | RollBack | FailRollBack | Refuse | ChangeSource(tree: Tree)

  ghost predicate Init(job: Job, w: World) {
    && (job.prior.Some? ==> IsTree(job.prior.value)) && IsTree(w.source)
    && w == World(Starting, w.source, false, None, job.prior, None)
  }

  predicate PriorMayGo(job: Job, w: World) {
    job.prior.Some? ==> w.destination.Some? && IsTree(w.destination.value) && ValidateExisting(job, w.destination.value)
  }

  predicate CanRefuse(p: Phase) {
    p.Starting? || p.Staging? || p.Marking? || p.Authorizing? || p.Swapping?
  }

  function StageWith(w: World, stage: Tree, phase: Phase): World {
    w.(stage := Some(stage), phase := phase)
  }

  predicate Next(job: Job, w: World, step: Step, w': World) {
    var h := job.platform.hash;
    match step
    case Begin => w.phase.Starting? && Complete(job.manifest) && PriorMayGo(job, w)
      && w' == StageWith(w, map[], Staging(0))
    case PlaceNext =>
      && w.phase.Staging? && w.phase.k < |job.manifest| && w.stage.Some?
      && var placed := Place(h, w.source, job.manifest[w.phase.k], w.stage.value);
      && placed.Some? && w' == StageWith(w, placed.value, Staging(w.phase.k + 1))
    case Compare =>
      && w.phase == Staging(|job.manifest|) && w.stage.Some? && IsTree(w.stage.value) && IsTree(w.source)
      && Inventory(h, w.stage.value, false) == Some(job.manifest) && Inventory(h, w.source, false) == Some(job.manifest)
      && w' == w.(phase := Marking)
    case Mark =>
      && w.phase.Marking? && w.stage.Some? && MARKER !in w.stage.value
      && w' == StageWith(w, w.stage.value[MARKER := File(Marker(job))], Authorizing)
    case Authorize =>
      && w.phase.Authorizing? && w.stage.Some? && IsTree(w.stage.value)
      && var listed := Inventory(h, w.stage.value, false);
      && listed.Some? && WithoutOwner(listed.value) == job.manifest && PriorMayGo(job, w)
      && w' == w.(phase := Swapping)
    case Exchange => w.phase.Swapping? && job.linux && job.prior.Some?
      && w' == w.(stage := w.destination, destination := w.stage, phase := Done)
    case MoveIn => w.phase.Swapping? && job.prior.None? && w.destination.None?
      && w' == w.(stage := None, destination := w.stage, phase := Done)
    case MoveAway =>
      && w.phase.Swapping? && !job.linux && job.prior.Some? && w.backup.None?
      && w' == w.(backup := w.destination, destination := None, phase := Moved)
    case MoveInPlace => w.phase.Moved? && w.destination.None?
      && w' == w.(stage := None, destination := w.stage, phase := Done)
    case FailMove => w.phase.Moved? && w' == w.(phase := RollingBack)
    case RollBack => w.phase.RollingBack? && w.destination.None?
      && w' == w.(destination := w.backup, backup := None, phase := Refused)
    case FailRollBack => w.phase.RollingBack? && w' == w.(phase := Refused)
    case Refuse => CanRefuse(w.phase) && w' == w.(phase := Refused)
    case ChangeSource(tree) => IsTree(tree) && w' == w.(source := tree, touched := true)
  }

  ghost predicate StepAt(job: Job, worlds: seq<World>, steps: seq<Step>, i: nat)
    requires |worlds| == |steps| + 1 && i < |steps|
  {
    Next(job, worlds[i], steps[i], worlds[i + 1])
  }

  /** A run may stop anywhere: that is what an interruption leaves behind. */
  ghost predicate IsRun(job: Job, worlds: seq<World>, steps: seq<Step>) {
    && |worlds| == |steps| + 1 && Init(job, worlds[0])
    && forall i :: 0 <= i < |steps| ==> StepAt(job, worlds, steps, i)
  }

  // ----- what every step keeps -----

  /** The manifest plus the owner's marker, and nothing else. */
  ghost predicate IsPublished(job: Job, t: Tree) {
    && IsTree(t) && MARKER in t && t[MARKER] == File(Marker(job))
    && var listed := Inventory(job.platform.hash, t, false);
    && listed.Some? && WithoutOwner(listed.value) == job.manifest
  }

  ghost predicate Trees(job: Job, w: World) {
    && IsTree(w.source)
    && (job.prior.Some? ==> IsTree(job.prior.value))
    && (w.stage.Some? ==> IsTree(w.stage.value))
  }

  /** Where the prior tree is, phase by phase. */
  ghost predicate PriorKept(job: Job, w: World) {
    match w.phase
    case Moved => w.destination == None && w.backup == job.prior && job.prior.Some? && !job.linux
    case RollingBack => w.destination == None && w.backup == job.prior && job.prior.Some? && !job.linux
    case Done =>
      && w.destination.Some?
      && (job.prior.Some? && job.linux ==> w.stage == job.prior)
      && (job.prior.Some? && !job.linux ==> w.backup == job.prior)
    case Refused => w.destination == job.prior
      || (!job.linux && job.prior.Some? && w.destination == None && w.backup == job.prior)
    case _ => w.destination == job.prior && w.backup == None
  }

  /** How far the new tree is, phase by phase. */
  ghost predicate NewBuilt(job: Job, w: World) {
    match w.phase
    case Starting => true
    case Refused => true
    case Staging(k) => Complete(job.manifest) && k <= |job.manifest| && w.stage.Some?
    case Marking => w.stage.Some?
    case Authorizing => w.stage.Some? && MARKER in w.stage.value && w.stage.value[MARKER] == File(Marker(job))
    case Done => w.destination.Some? && IsPublished(job, w.destination.value)
    case _ => w.stage.Some? && IsPublished(job, w.stage.value)
  }

  /** What an undisturbed source makes of the new tree. */
  ghost predicate Undisturbed(job: Job, w: World) {
    !w.touched ==>
      match w.phase
      case Starting => true
      case Refused => true
      case Staging(k) => k <= |job.manifest| && Replay(job.platform.hash, w.source, job.manifest[..k]) == w.stage
      case Marking => w.stage == Some(w.source)
      case Done => w.destination == Some(w.source[MARKER := File(Marker(job))])
      case _ => w.stage == Some(w.source[MARKER := File(Marker(job))])
  }

  ghost predicate Inv(job: Job, w: World) {
    Trees(job, w) && PriorKept(job, w) && NewBuilt(job, w) && Undisturbed(job, w)
  }

  lemma PlaceKeepsTree(h: Hash, src: Tree, e: Entry, stage: Tree)
    requires IsTree(stage) && SafeEntry(e) && Place(h, src, e, stage).Some?
    ensures IsTree(Place(h, src, e, stage).value)
  {
    var t := Place(h, src, e, stage).value;
    var p := e.path;
    SplitHasNoSlash(Join(p), |p| - 1);
    forall q | q in t ensures Placed(t, q) {
      if q != p { assert Placed(stage, q); }
    }
  }

  lemma {:induction false} SplitHasNoSlash(s: string, i: nat)
    requires i < |SplitOn('/', s)|
    ensures '/' !in SplitOn('/', s)[i]
  {
    if s != "" {
      if s[0] == '/' {
        if i > 0 { SplitHasNoSlash(s[1..], i - 1); }
      } else {
        SplitHasNoSlash(s[1..], i);
      }
    }
  }

  lemma MarkKeepsTree(job: Job, t: Tree)
    requires IsTree(t) && MARKER !in t
    ensures IsTree(t[MARKER := File(Marker(job))])
  {
    var u := t[MARKER := File(Marker(job))];
    forall q | q in u ensures Placed(u, q) {
      if q != MARKER { assert Placed(t, q); }
    }
  }

  lemma PlaceSafely(job: Job, w: World)
    requires Complete(job.manifest) && w.phase.Staging? && w.phase.k < |job.manifest| && w.stage.Some?
             && IsTree(w.stage.value)
    ensures var placed := Place(job.platform.hash, w.source, job.manifest[w.phase.k], w.stage.value);
            placed.Some? ==> IsTree(placed.value)
  {
    var e := job.manifest[w.phase.k];
    assert SafeEntry(e);
    if Place(job.platform.hash, w.source, e, w.stage.value).Some? {
      PlaceKeepsTree(job.platform.hash, w.source, e, w.stage.value);
    }
  }

  lemma PlaceReplays(job: Job, w: World, w': World)
    requires Undisturbed(job, w) && Next(job, w, PlaceNext, w')
    ensures Undisturbed(job, w')
  {
    if !w.touched { ReplayOneMore(job.platform.hash, w.source, job.manifest, w.phase.k); }
  }

  lemma PlaceKeepsInv(job: Job, w: World, w': World)
    requires Inv(job, w) && Next(job, w, PlaceNext, w')
    ensures Inv(job, w')
  {
    PlaceSafely(job, w);
    PlaceReplays(job, w, w');
  }

  lemma CompareKeepsInv(job: Job, w: World, w': World)
    requires Inv(job, w) && Next(job, w, Compare, w')
    ensures Inv(job, w')
  {
    assert job.manifest[..|job.manifest|] == job.manifest;
    ReplayRebuilds(job.platform.hash, w.source);
  }

  lemma BuildingKeepsInv(job: Job, w: World, step: Step, w': World)
    requires Inv(job, w) && Next(job, w, step, w') && step in {Begin, Mark, Authorize}
    ensures Inv(job, w')
  {
    if step.Mark? { MarkKeepsTree(job, w.stage.value); }
    if step.Begin? { assert job.manifest[..0] == []; }
  }

  lemma MovingKeepsInv(job: Job, w: World, step: Step, w': World)
    requires Inv(job, w) && Next(job, w, step, w') && step in {Exchange, MoveIn, MoveAway, MoveInPlace}
    ensures Inv(job, w')
  {
  }

  lemma OtherKeepsInv(job: Job, w: World, step: Step, w': World)
    requires Inv(job, w) && Next(job, w, step, w')
    requires step.FailMove? || step.RollBack? || step.FailRollBack? || step.Refuse? || step.ChangeSource?
    ensures Inv(job, w')
  {
  }

  lemma {:induction false} RunKeepsInv(job: Job, worlds: seq<World>, steps: seq<Step>, n: nat)
    requires IsRun(job, worlds, steps) && n < |worlds|
    ensures Inv(job, worlds[n])
  {
    if n > 0 {
      RunKeepsInv(job, worlds, steps, n - 1);
      assert StepAt(job, worlds, steps, n - 1);
      StepKeepsInv(job, worlds[n - 1], steps[n - 1], worlds[n]);
    }
  }

  lemma StepKeepsInv(job: Job, w: World, step: Step, w': World)
    requires Inv(job, w) && Next(job, w, step, w')
    ensures Inv(job, w')
  {
    match step
    case PlaceNext => PlaceKeepsInv(job, w, w');
    case Compare => CompareKeepsInv(job, w, w');
    case Begin => BuildingKeepsInv(job, w, step, w');
    case Mark => BuildingKeepsInv(job, w, step, w');
    case Authorize => BuildingKeepsInv(job, w, step, w');
    case Exchange => MovingKeepsInv(job, w, step, w');
    case MoveIn => MovingKeepsInv(job, w, step, w');
    case MoveAway => MovingKeepsInv(job, w, step, w');
    case MoveInPlace => MovingKeepsInv(job, w, step, w');
    case _ => OtherKeepsInv(job, w, step, w');
  }

  // ----- the theorems -----

  /** On Linux the destination is at every step exactly the prior tree or the finished publication. */
  lemma DestinationIsPriorOrPublished(job: Job, worlds: seq<World>, steps: seq<Step>, n: nat)
    requires IsRun(job, worlds, steps) && n < |worlds| && job.linux
    ensures var d := worlds[n].destination; d == job.prior || (d.Some? && IsPublished(job, d.value))
    ensures worlds[n].phase.Refused? ==> worlds[n].destination == job.prior
  {
    RunKeepsInv(job, worlds, steps, n);
  }

  /**
   The prior tree is never lost: elsewhere it is at the destination or in the backup, on Linux there
   or in the retained stage.
   */
  lemma PriorIsNeverLost(job: Job, worlds: seq<World>, steps: seq<Step>, n: nat)
    requires IsRun(job, worlds, steps) && n < |worlds| && job.prior.Some?
    ensures var w := worlds[n];
            w.destination == job.prior
                || if job.linux then w.phase.Done? && w.stage == job.prior else w.backup == job.prior
  {
    RunKeepsInv(job, worlds, steps, n);
  }

  /**
   A finished publication holds exactly the manifest and the marker; with the source left alone,
   exactly the source and the marker.
   */
  lemma DonePublishes(job: Job, worlds: seq<World>, steps: seq<Step>, n: nat)
    requires IsRun(job, worlds, steps) && n < |worlds| && worlds[n].phase.Done?
    ensures worlds[n].destination.Some? && IsPublished(job, worlds[n].destination.value)
    ensures forall p :: p in worlds[n].destination.value <==> p == MARKER || Has(job.manifest, p)
    ensures forall i :: 0 <= i < |job.manifest| ==>
            Matches(job.platform.hash, worlds[n].destination.value, job.manifest[i])
    ensures !worlds[n].touched ==> worlds[n].destination.value == worlds[0].source[MARKER := File(Marker(job))]
  {
    RunKeepsInv(job, worlds, steps, n);
    PublishedHolds(job, worlds[n].destination.value);
    if !worlds[n].touched { SourceUntouched(job, worlds, steps, n); }
  }

  lemma {:induction false} SourceUntouched(job: Job, worlds: seq<World>, steps: seq<Step>, n: nat)
    requires IsRun(job, worlds, steps) && n < |worlds| && !worlds[n].touched
    ensures worlds[n].source == worlds[0].source
  {
    if n > 0 {
      assert StepAt(job, worlds, steps, n - 1);
      SourceUntouched(job, worlds, steps, n - 1);
    }
  }

  lemma {:induction false} WithoutOwnerKeeps(es: seq<Entry>, p: Path)
    requires p != MARKER
    ensures Has(WithoutOwner(es), p) <==> Has(es, p)
  {
    if es != [] {
      WithoutOwnerKeeps(es[1..], p);
      HasConcat([es[0]], es[1..], p);
      assert [es[0]] + es[1..] == es;
      if es[0].path == MARKER {
        assert !Has([es[0]], p);
      } else {
        HasConcat([es[0]], WithoutOwner(es[1..]), p);
      }
    }
  }

  lemma {:induction false} WithoutOwnerFrom(es: seq<Entry>, i: nat)
    requires i < |WithoutOwner(es)|
    ensures WithoutOwner(es)[i] in es && WithoutOwner(es)[i].path != MARKER
  {
    if es[0].path == MARKER {
      WithoutOwnerFrom(es[1..], i);
    } else if i > 0 {
      WithoutOwnerFrom(es[1..], i - 1);
    }
  }

  lemma PublishedHolds(job: Job, t: Tree)
    requires IsPublished(job, t)
    ensures forall p :: p in t <==> p == MARKER || Has(job.manifest, p)
    ensures forall i :: 0 <= i < |job.manifest| ==> Matches(job.platform.hash, t, job.manifest[i])
  {
    var listed := Inventory(job.platform.hash, t, false).value;
    InventoryLists(job.platform.hash, t, false);
    forall p ensures p in t <==> p == MARKER || Has(job.manifest, p) {
      assert Has(listed, p) <==> p in t;
      if p != MARKER { WithoutOwnerKeeps(listed, p); }
    }
    forall i | 0 <= i < |job.manifest| ensures Matches(job.platform.hash, t, job.manifest[i]) {
      WithoutOwnerFrom(listed, i);
    }
  }

  /** The next publication accepts this one exactly when its marker is not too large to be read back. */
  lemma PublishedPassesValidation(job: Job, t: Tree, allowLegacy: bool)
    requires IsPublished(job, t)
    requires job.platform.decode(Marker(job)) == Some(Owner(1, job.engine, job.manifest))
    ensures ValidateExisting(job.(allowLegacy := allowLegacy), t) <==> |Marker(job)| <= MAX_JSON
  {
  }
}
