/**
 A publication that its own successor refuses: a tree of small files and many directories with long
 paths fits every limit of the inventory, is published, and leaves a marker of more than 16 MiB.
 */
module GuiOversize {
  import opened Outcome
  import opened Ordering
  import opened Powers
  import opened GuiInventory
  import opened GuiBudget
  import opened GuiPublish
  import opened GuiLiveness

  // ----- long names and paths -----

  function Repeat(c: char, n: nat): (s: string)
    ensures |s| == n && forall i :: 0 <= i < n ==> s[i] == c
  {
    if n == 0 then "" else [c] + Repeat(c, n - 1)
  }

  /** The lowest `k` binary digits of `i`. */
  function Digits(i: nat, k: nat): (s: string)
    ensures |s| == k && forall j :: 0 <= j < k ==> s[j] == '0' || s[j] == '1'
  {
    if k == 0 then "" else [if i % 2 == 0 then '0' else '1'] + Digits(i / 2, k - 1)
  }

  lemma {:induction false} DigitsInjective(i: nat, j: nat, k: nat)
    requires i < Pow2(k) && j < Pow2(k) && Digits(i, k) == Digits(j, k)
    ensures i == j
  {
    if k > 0 {
      assert Digits(i, k)[0] == Digits(j, k)[0];
      assert Digits(i, k)[1..] == Digits(i / 2, k - 1) && Digits(j, k)[1..] == Digits(j / 2, k - 1);
      DigitsInjective(i / 2, j / 2, k - 1);
    }
  }

  const WIDTH: nat := 255
  const BITS: nat := 15

  function Long(w: nat): (s: string)
    ensures |s| == w && GoodText(s)
  {
    Repeat('a', w)
  }

  /** A name of `w` characters with a number in it. */
  function Name(w: nat, i: nat): (s: string)
    requires w >= BITS
    ensures |s| == w && GoodText(s)
  {
    Repeat('a', w - BITS) + Digits(i, BITS)
  }

  lemma NameInjective(w: nat, i: nat, j: nat)
    requires w >= BITS && i < Pow2(BITS) && j < Pow2(BITS) && Name(w, i) == Name(w, j)
    ensures i == j
  {
    var a := w - BITS;
    assert Name(w, i)[a..] == Digits(i, BITS) && Name(w, j)[a..] == Digits(j, BITS);
    DigitsInjective(i, j, BITS);
  }

  function Base(w: nat): Path {
    [Long(w), Long(w), Long(w)]
  }

  /** One of many directories four levels down. */
  function Deep(w: nat, i: nat): (p: Path)
    requires w >= BITS
    ensures |p| == 4 && p[..3] == Base(w) && p[3] == Name(w, i)
  {
    Base(w) + [Name(w, i)]
  }

  predicate GoodPath(p: Path) {
    1 <= |p| <= 4 && forall i :: 0 <= i < |p| ==> GoodText(p[i]) && 3 <= |p[i]| <= WIDTH
  }

  /** The text of a path of good names: its length, and that every character is allowed. */
  lemma {:induction false} JoinGood(p: Path)
    requires p != [] && forall i :: 0 <= i < |p| ==> GoodText(p[i]) && 3 <= |p[i]| <= WIDTH
    ensures 0 < |Join(p)| <= 256 * |p| - 1
            && ((forall i :: 0 <= i < |p| ==> |p[i]| == WIDTH) ==> |Join(p)| == 256 * |p| - 1)
    ensures forall i :: 0 <= i < |Join(p)| ==> Join(p)[i] == '/' || GoodText([Join(p)[i]])
  {
    if |p| == 1 {
      forall i | 0 <= i < |Join(p)| ensures GoodText([Join(p)[i]]) { assert Join(p)[i] == p[0][i]; }
    } else {
      var rest := p[1..];
      assert forall i :: 0 <= i < |rest| ==> rest[i] == p[i + 1];
      JoinGood(rest);
      var head, tail := p[0], Join(rest);
      assert Join(p) == head + "/" + tail;
      forall i | 0 <= i < |Join(p)| ensures Join(p)[i] == '/' || GoodText([Join(p)[i]]) {
        if i < |head| {
          assert Join(p)[i] == head[i];
        } else if i > |head| {
          assert Join(p)[i] == tail[i - |head| - 1];
        }
      }
    }
  }

  lemma GoodPathIsValid(p: Path)
    requires GoodPath(p)
    ensures ValidRelative(Join(p)) && SplitOn('/', Join(p)) == p
  {
    JoinGood(p);
    SplitJoin(p);
    forall i | 0 <= i < |Join(p)|
      ensures Join(p)[i] as int < 128 && Join(p)[i] != '\\' && !IsControl(Join(p)[i]) && Join(p)[i] != ':'
    {
      assert Join(p)[i] == '/' || GoodText([Join(p)[i]]);
      assert [Join(p)[i]][0] == Join(p)[i];
    }
  }

  lemma DeepIsLong(w: nat, i: nat)
    requires w == WIDTH
    ensures GoodPath(Deep(w, i)) && |Join(Deep(w, i))| == 1023
    ensures forall k :: 0 <= k < 4 ==> |Deep(w, i)[k]| == WIDTH
  {
    var d := Deep(w, i);
    assert forall k :: 0 <= k < 3 ==> d[k] == d[..3][k];
    JoinGood(d);
  }

  // ----- the tree -----

  /** The entry points every artifact must have. */
  function Required(): set<Path> {
    {["index.js"], ["index.umd.cjs"], ["style.css"], ["index.d.ts"]}
  }

  function Trunk(w: nat): Tree {
    map[[Long(w)] := Dir, [Long(w), Long(w)] := Dir, Base(w) := Dir]
  }

  function Files(): Tree {
    map p | p in Required() :: File([0])
  }

  /** `n` directories with long paths beside the required files. */
  function Forest(w: nat, n: nat): Tree
    requires w >= BITS
  {
    if n == 0 then Trunk(w) + Files() else Forest(w, n - 1)[Deep(w, n - 1) := Dir]
  }

  predicate GoodNode(t: Tree, p: Path)
    requires p in t
  {
    && GoodPath(p) && OWNER !in p && ParentIsDir(t, p)
    && (if p in Required() then t[p] == File([0]) else t[p] == Dir)
  }

  predicate GoodTree(t: Tree) {
    forall p {:trigger GoodNode(t, p)} :: p in t ==> GoodNode(t, p)
  }

  lemma RequiredAreGood(p: Path)
    requires p in Required()
    ensures GoodPath(p) && OWNER !in p && |p| == 1 && |p[0]| < WIDTH
  {
    var name := p[0];
    assert GoodText("index.js");
    assert GoodText("index.umd.cjs");
    assert GoodText("style.css");
    assert GoodText("index.d.ts");
    assert |name| != |OWNER|;
  }

  lemma LongIsNotOwner(p: Path)
    requires forall i :: 0 <= i < |p| ==> |p[i]| == WIDTH
    ensures OWNER !in p && p !in Required()
  {
    assert |OWNER| == 22;
    if p in Required() { RequiredAreGood(p); }
  }

  lemma RequiredNodeIsGood(w: nat, t: Tree, p: Path)
    requires t == Trunk(w) + Files() && p in Required()
    ensures p in t && GoodNode(t, p)
  {
    RequiredAreGood(p);
    assert p in Files() && Files()[p] == File([0]);
  }

  lemma TrunkIsGood(w: nat, t: Tree)
    requires w == WIDTH && t == Trunk(w) + Files()
    ensures GoodTree(t) && Base(w) in t && t[Base(w)] == Dir && |t| <= 7
  {
    forall p | p in t ensures GoodNode(t, p) {
      if p in Required() { RequiredNodeIsGood(w, t, p); } else { TrunkNodeIsGood(w, t, p); }
    }
    TrunkIsSmall(w, t);
    TrunkHasBase(w, t);
  }

  lemma TrunkHasBase(w: nat, t: Tree)
    requires w == WIDTH && t == Trunk(w) + Files()
    ensures Base(w) in t && t[Base(w)] == Dir
  {
    LongIsNotOwner(Base(w));
  }

  lemma TrunkIsSmall(w: nat, t: Tree)
    requires t == Trunk(w) + Files()
    ensures |t| <= 7
  {
    var one, two := [Long(w)], [Long(w), Long(w)];
    assert Trunk(w).Keys == {one, two, Base(w)};
    assert Files().Keys == Required();
    assert t.Keys == {one, two, Base(w)} + Required();
    FewPaths(one, two, Base(w));
    assert |t| == |t.Keys|;
  }

  lemma FewPaths(a: Path, b: Path, c: Path)
    ensures |{a, b, c} + Required()| <= 7
  {
    SmallUnion({a}, {b});
    SmallUnion({a, b}, {c});
    assert {a} + {b} == {a, b} && {a, b} + {c} == {a, b, c};
    FourRequired();
    SmallUnion({a, b, c}, Required());
  }

  lemma FourRequired()
    ensures |Required()| <= 4
  {
    var a: Path, b: Path, c: Path, d: Path := ["index.js"], ["index.umd.cjs"], ["style.css"], ["index.d.ts"];
    assert Required() == {a} + {b} + ({c} + {d});
    SmallUnion({a}, {b});
    SmallUnion({c}, {d});
    SmallUnion({a} + {b}, {c} + {d});
  }

  lemma TrunkNodeIsGood(w: nat, t: Tree, p: Path)
    requires w == WIDTH && t == Trunk(w) + Files() && p in Trunk(w)
    ensures p in t && GoodNode(t, p)
  {
    assert forall i :: 0 <= i < |p| ==> p[i] == Long(w);
    LongIsNotOwner(p);
    if |p| > 1 { ParentInTrunk(w, t, p); }
  }

  lemma ParentInTrunk(w: nat, t: Tree, p: Path)
    requires w == WIDTH && t == Trunk(w) + Files() && p in Trunk(w) && |p| > 1
    ensures p[..|p| - 1] in t && t[p[..|p| - 1]] == Dir
  {
    var up := p[..|p| - 1];
    assert Base(w)[..2] == [Long(w), Long(w)] && [Long(w), Long(w)][..1] == [Long(w)];
    assert up in Trunk(w);
    assert forall i :: 0 <= i < |up| ==> up[i] == p[i];
    LongIsNotOwner(up);
  }

  lemma SmallUnion(a: set<Path>, b: set<Path>)
    ensures |a + b| <= |a| + |b|
  {
    assert a + b == a + (b - a);
    assert |b - a| <= |b| by { assert b == (b - a) + (b * a); }
  }

  /** Every directory that is added has its parent. */
  lemma {:induction false} ForestIsGood(w: nat, n: nat)
    requires w == WIDTH
    ensures GoodTree(Forest(w, n)) && Base(w) in Forest(w, n) && Forest(w, n)[Base(w)] == Dir && |Forest(w, n)| <= 7 + n
  {
    if n == 0 {
      TrunkIsGood(w, Forest(w, n));
    } else {
      ForestIsGood(w, n - 1);
      DeepIsLong(w, n - 1);
      AddDeep(Forest(w, n - 1), Base(w), Deep(w, n - 1));
    }
  }

  lemma {:induction false} ForestHas(w: nat, n: nat, i: nat)
    requires w >= BITS && i < n
    ensures Deep(w, i) in Forest(w, n)
  {
    if i < n - 1 { ForestHas(w, n - 1, i); }
  }

  lemma {:induction false} ForestRequired(w: nat, n: nat, p: Path)
    requires w >= BITS && p in Required()
    ensures p in Forest(w, n)
  {
    if n > 0 { ForestRequired(w, n - 1, p); }
  }

  lemma AddDeep(t: Tree, base: Path, d: Path)
    requires GoodTree(t) && base in t && t[base] == Dir && |d| == 4 && d[..3] == base && GoodPath(d)
    requires forall k :: 0 <= k < 4 ==> |d[k]| == WIDTH
    ensures var u := t[d := Dir];
            GoodTree(u) && base in u && u[base] == Dir && |u| <= |t| + 1
  {
    var u := t[d := Dir];
    LongIsNotOwner(d);
    forall p | p in u ensures GoodNode(u, p) {
      if p != d { assert GoodNode(t, p); }
    }
    assert u.Keys == t.Keys + {d};
    SmallUnion(t.Keys, {d});
    assert |u| == |u.Keys| && |t| == |t.Keys|;
  }

  /** A good tree is a file system tree all of whose nodes are safe. */
  lemma GoodIsSafe(t: Tree)
    requires GoodTree(t)
    ensures IsTree(t) && forall p :: p in t ==> SafeNode(t, false, p)
  {
    forall p | p in t ensures Placed(t, p) && SafeNode(t, false, p) {
      assert GoodNode(t, p);
      GoodPathIsValid(p);
    }
  }

  // ----- its list -----

  /** All the text of the paths in a list. */
  function PathText(es: seq<Entry>): nat {
    if es == [] then 0 else |Join(es[0].path)| + PathText(es[1..])
  }

  lemma {:induction false} PathTextWithout(es: seq<Entry>, k: nat)
    requires k < |es|
    ensures PathText(es) == PathText(es[..k] + es[k + 1..]) + |Join(es[k].path)|
  {
    if k == 0 {
      assert es[..0] + es[1..] == es[1..];
    } else {
      var rest := es[1..];
      PathTextWithout(rest, k - 1);
      assert (es[..k] + es[k + 1..])[1..] == rest[..k - 1] + rest[k..];
      assert rest[k - 1] == es[k];
    }
  }

  lemma OrderWithout(es: seq<Entry>, k: nat)
    requires k < |es| && InOrder(es)
    ensures InOrder(es[..k] + es[k + 1..])
  {
    var a, b := es[..k], es[k + 1..];
    assert forall i :: 0 <= i < |b| ==> b[i] == es[k + 1 + i];
    OrderConcat(a, b);
  }

  lemma HasWithout(es: seq<Entry>, k: nat, p: Path)
    requires k < |es| && Has(es, p) && p != es[k].path
    ensures Has(es[..k] + es[k + 1..], p)
  {
    var a, b := es[..k], es[k + 1..];
    HasConcat(a, b, p);
    var i :| 0 <= i < |es| && es[i].path == p;
    if i < k { assert a[i].path == p; } else { assert b[i - k - 1].path == p; }
  }

  /** A list that names many different long paths has all their text. */
  lemma {:induction false} LongText(es: seq<Entry>, paths: seq<Path>)
    requires InOrder(es) && NoDup(paths)
             && forall i :: 0 <= i < |paths| ==> Has(es, paths[i]) && |Join(paths[i])| == 1023
    ensures PathText(es) >= 1023 * |paths|
  {
    if paths != [] {
      var n := |paths| - 1;
      assert Has(es, paths[n]);
      var k :| 0 <= k < |es| && es[k].path == paths[n];
      PathTextWithout(es, k);
      OrderWithout(es, k);
      FewerPaths(es, k, paths);
      LongText(es[..k] + es[k + 1..], paths[..n]);
    }
  }

  lemma FewerPaths(es: seq<Entry>, k: nat, paths: seq<Path>)
    requires paths != [] && NoDup(paths) && k < |es| && es[k].path == paths[|paths| - 1]
    requires forall i :: 0 <= i < |paths| ==> Has(es, paths[i]) && |Join(paths[i])| == 1023
    ensures var rest, fewer := es[..k] + es[k + 1..], paths[..|paths| - 1];
            NoDup(fewer) && forall i :: 0 <= i < |fewer| ==> Has(rest, fewer[i]) && |Join(fewer[i])| == 1023
  {
    var rest, fewer := es[..k] + es[k + 1..], paths[..|paths| - 1];
    forall i | 0 <= i < |fewer| ensures Has(rest, fewer[i]) && |Join(fewer[i])| == 1023 {
      assert fewer[i] == paths[i];
      HasWithout(es, k, paths[i]);
    }
  }

  function DeepPaths(w: nat, n: nat): (ps: seq<Path>)
    requires w >= BITS
    ensures |ps| == n && forall i :: 0 <= i < n ==> ps[i] == Deep(w, i)
  {
    if n == 0 then [] else DeepPaths(w, n - 1) + [Deep(w, n - 1)]
  }

  lemma DeepPathsDiffer(w: nat, n: nat)
    requires w >= BITS && n <= Pow2(BITS)
    ensures NoDup(DeepPaths(w, n))
  {
    var ps := DeepPaths(w, n);
    forall i, j | 0 <= i < j < |ps| ensures ps[i] != ps[j] {
      if ps[i][3] == ps[j][3] { NameInjective(w, i, j); }
    }
  }

  /** The few files are all that costs bytes and chunks. */
  lemma {:induction false} FileCost(es: seq<Entry>, files: set<Path>)
    requires InOrder(es) && forall i :: 0 <= i < |es| ==> SizeOf(es[i]) == if es[i].path in files then 1 else 0
    ensures ByteTotal(es) <= |files| && ChunkTotal(es) <= |files|
  {
    if es != [] {
      var p, rest := es[0].path, es[1..];
      RestHas(es, p);
      forall i | 0 <= i < |rest| ensures SizeOf(rest[i]) == if rest[i].path in files - {p} then 1 else 0 {
        assert rest[i] == es[i + 1];
        PathLessIrreflexive(es[0].path, es[i + 1].path);
      }
      FileCost(rest, files - {p});
      assert Chunks(0) == 0 && Chunks(1) == 1;
    }
  }

  // ----- its publication -----

  const COUNT: nat := 16500

  lemma EnoughNames()
    ensures Pow2(BITS) == 32768
  {
    assert Pow2(5) == 32;
    assert Pow2(10) == 1024 by { assert Pow2(8) == 256; }
    assert Pow2(15) == 32768 by { assert Pow2(13) == 8192; }
  }

  /** The list of the forest: affordable, with room for any marker a file can hold, and full of text. */
  lemma ForestList(w: nat, h: Hash) returns (es: seq<Entry>)
    requires w == WIDTH
    ensures IsTree(Forest(w, COUNT)) && IsInventory(h, Forest(w, COUNT), false, es)
            && Inventory(h, Forest(w, COUNT), false) == Some(es)
    ensures |es| <= 7 + COUNT && ByteTotal(es) <= 4 && ChunkTotal(es) <= 4 && PathText(es) > MAX_JSON
  {
    var t := Forest(w, COUNT);
    ForestIsGood(w, COUNT);
    GoodIsSafe(t);
    es := SafeIsListed(h, t);
    ForestCost(h, w, t, es);
    ForestText(h, w, t, es);
    SmallIsInventory(h, t, es);
  }

  lemma {:induction false} SmallIsInventory(h: Hash, t: Tree, es: seq<Entry>)
    requires IsTree(t) && (forall p :: p in t ==> SafeNode(t, false, p)) && IsInventory(h, t, false, es)
    requires |es| <= 7 + COUNT && ByteTotal(es) <= 4 && ChunkTotal(es) <= 4
    ensures Inventory(h, t, false) == Some(es)
  {
    InventoryOfList(h, t, es);
  }

  lemma ForestCost(h: Hash, w: nat, t: Tree, es: seq<Entry>)
    requires GoodTree(t) && |t| <= 7 + COUNT && IsInventory(h, t, false, es)
    ensures |es| <= 7 + COUNT && ByteTotal(es) <= 4 && ChunkTotal(es) <= 4
  {
    assert forall p :: Has(es, p) <==> p in t.Keys;
    ListedOnce(es, t.Keys);
    forall i | 0 <= i < |es| ensures SizeOf(es[i]) == if es[i].path in Required() then 1 else 0 {
      assert Matches(h, t, es[i]) && GoodNode(t, es[i].path);
    }
    FileCost(es, Required());
    FourRequired();
  }

  lemma ForestText(h: Hash, w: nat, t: Tree, es: seq<Entry>)
    requires w == WIDTH && t == Forest(w, COUNT) && IsInventory(h, t, false, es)
    ensures PathText(es) > MAX_JSON
  {
    var ps := DeepPaths(w, COUNT);
    EnoughNames();
    DeepPathsDiffer(w, COUNT);
    forall i | 0 <= i < |ps| ensures Has(es, ps[i]) && |Join(ps[i])| == 1023 {
      ForestHas(w, COUNT, i);
      DeepIsLong(w, i);
      assert Has(es, ps[i]) <==> ps[i] in t && Shown(false, ps[i], 0);
    }
    LongText(es, ps);
  }

  lemma ForestProvides(h: Hash, w: nat, es: seq<Entry>, name: string)
    requires w == WIDTH && [name] in Required() && IsInventory(h, Forest(w, COUNT), false, es)
    ensures Provides(es, name)
  {
    var t := Forest(w, COUNT);
    ForestRequired(w, COUNT, [name]);
    ForestIsGood(w, COUNT);
    assert Has(es, [name]) <==> [name] in t && Shown(false, [name], 0);
    var i :| 0 <= i < |es| && es[i].path == [name];
    assert Matches(h, t, es[i]) && GoodNode(t, [name]);
  }

  lemma ForestIsComplete(h: Hash, w: nat, es: seq<Entry>)
    requires w == WIDTH && IsInventory(h, Forest(w, COUNT), false, es) && |es| <= MAX_ENTRIES
             && forall b :: IsDigest(h(b))
    ensures Complete(es)
  {
    var t := Forest(w, COUNT);
    ForestProvides(h, w, es, "index.js");
    ForestProvides(h, w, es, "index.umd.cjs");
    ForestProvides(h, w, es, "style.css");
    ForestProvides(h, w, es, "index.d.ts");
    ForestIsGood(w, COUNT);
    forall i | 0 <= i < |es| ensures SafeEntry(es[i]) {
      assert Matches(h, t, es[i]) && GoodNode(t, es[i].path);
      GoodPathIsValid(es[i].path);
    }
  }

  /** The owner document of a publication of so many entries. */
  predicate Ordinary(o: Owner) {
    && o.schema == 1 && IsDigest(o.engineSha256) && |o.artifacts| <= 7 + COUNT
    && forall i {:trigger SafeEntry(o.artifacts[i])} :: 0 <= i < |o.artifacts| ==> SafeEntry(o.artifacts[i])
  }

  /** The encoding writes all paths out, and keeps ordinary documents within the limit of a file. */
  ghost predicate WritesPaths(platform: Platform) {
    && (forall o: Owner :: PathText(o.artifacts) <= |platform.encode(o)|)
    && (forall o: Owner :: Ordinary(o) ==> |platform.encode(o)| <= MAX_FILE)
  }

  lemma ForestCanBePublished(platform: Platform, linux: bool, engine: string, w: nat) returns (job: Job)
    requires w == WIDTH && IsDigest(engine) && (forall b :: IsDigest(platform.hash(b))) && WritesPaths(platform)
    ensures job.platform == platform && |Marker(job)| > MAX_JSON
    ensures exists world :: CanReach(job, world) && world.phase.Done?
  {
    var es := ForestList(w, platform.hash);
    job := Job(platform, linux, engine, false, es, None);
    ForestIsComplete(platform.hash, w, es);
    assert Ordinary(Owner(1, engine, es));
    MarkerSizes(job);
    PublicationCanSucceed(job, Forest(w, COUNT));
  }

  /**
   For every digest-like hash and every encoding of this kind: some publication is completed, and
   what it leaves is refused by the next.
   */
  lemma OversizedMarkerIsRefused(platform: Platform, linux: bool, engine: string)
    returns (job: Job, world: World)
    requires IsDigest(engine) && (forall b :: IsDigest(platform.hash(b))) && WritesPaths(platform)
    ensures CanReach(job, world) && world.phase.Done? && world.destination.Some? && IsTree(world.destination.value)
    ensures !ValidateExisting(job, world.destination.value) && |Marker(job)| > MAX_JSON
  {
    job := ForestCanBePublished(platform, linux, engine, WIDTH);
    world :| CanReach(job, world) && world.phase.Done?;
    DoneIsRefused(job, world);
  }

  lemma MarkerSizes(job: Job)
    requires |job.manifest| <= 7 + COUNT && ByteTotal(job.manifest) <= 4 && ChunkTotal(job.manifest) <= 4
             && PathText(job.manifest) > MAX_JSON
    requires var o := Owner(1, job.engine, job.manifest); PathText(o.artifacts) <= |job.platform.encode(o)| <= MAX_FILE
    ensures MAX_JSON < |Marker(job)| <= MAX_FILE && HasRoom(job.manifest, |Marker(job)|)
  {
    ChunksBound(|Marker(job)|);
  }

  lemma DoneIsRefused(job: Job, world: World)
    requires CanReach(job, world) && world.phase.Done? && |Marker(job)| > MAX_JSON
    ensures world.destination.Some? && IsTree(world.destination.value)
            && !ValidateExisting(job, world.destination.value)
  {
    var worlds, steps :| IsRun(job, worlds, steps) && worlds[|steps|] == world;
    DonePublishes(job, worlds, steps, |steps|);
  }
}
