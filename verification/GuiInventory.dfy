/**
 The inventory of a built GUI: a directory tree is walked into a sorted, budgeted list of entries,
 and the list is replayed to rebuild the tree. A tree maps the paths below its root, as lists of
 names, to what is there; hashing is a parameter.
 */
module GuiInventory {
  import opened Outcome
  import opened Ordering
  import opened Crc32

  type Bytes = seq<byte>
  type Path = seq<string>

  /** `Other` is a link or a special file. */
  datatype Node = Dir | File(bytes: Bytes) | Other
  type Tree = map<Path, Node>

  datatype Entry = Directory(path: Path) | FileEntry(path: Path, size: nat, sha256: string)

  const MAX_FILE: nat := 128 * 1024 * 1024
  const MAX_BYTES: nat := 2 * 1024 * 1024 * 1024
  const MAX_ENTRIES: nat := 30000
  const CHUNK: nat := 64 * 1024
  const MAX_DEPTH: nat := 48

  // ----- trees -----

  predicate ParentIsDir(t: Tree, p: Path) {
    |p| > 0 && (|p| > 1 ==> p[..|p| - 1] in t && t[p[..|p| - 1]].Dir?)
  }

  predicate IsName(s: string) {
    s != "" && '/' !in s
  }

  predicate Placed(t: Tree, p: Path) {
    ParentIsDir(t, p) && IsName(p[|p| - 1])
  }

  /** What a file system guarantees of the tree below a directory. */
  predicate IsTree(t: Tree) {
    forall p {:trigger Placed(t, p)} :: p in t ==> Placed(t, p)
  }

  function NamesIn(t: Tree, prefix: Path): set<string> {
    set p | p in t && |p| == |prefix| + 1 && p[..|prefix|] == prefix :: p[|prefix|]
  }

  // ----- relative paths as text -----

  function Join(p: Path): string {
    if p == [] then "" else if |p| == 1 then p[0] else p[0] + "/" + Join(p[1..])
  }

  predicate IsControl(c: char) {
    c as int < 32 || c as int == 127
  }

  /** No empty, `.` or `..` part, only printable ASCII without `\` and `:`, and three size limits. */
  predicate ValidRelative(path: string) {
    && path != "" && |path| <= 1024
    && (forall i :: 0 <= i < |path| ==>
       path[i] as int < 128 && path[i] != '\\' && !IsControl(path[i]) && path[i] != ':')
    && |SplitOn('/', path)| <= MAX_DEPTH
    && (forall i :: 0 <= i < |SplitOn('/', path)| ==>
       SplitOn('/', path)[i] !in ["", ".", ".."] && |SplitOn('/', path)[i]| <= 255)
  }

  predicate StartsWith(s: string, p: string) {
    p <= s
  }

  predicate EndsWith(s: string, p: string) {
    |p| <= |s| && s[|s| - |p|..] == p
  }

  predicate Excluded(relative: string) {
    || SplitOn('/', relative)[0] in ["node_modules", "dist", ".git", ".refact", "coverage", "storybook-static",
                              "test-results", "playwright-report", ".cache", ".vite"]
    || EndsWith(relative, ".tsbuildinfo")
    || relative == ".eslintcache"
    || StartsWith(relative, "vite.config.ts.timestamp-")
    || StartsWith(relative, "vite.node.config.ts.timestamp-")
  }

  /** The text of a path names exactly its components. */
  lemma {:induction false} SplitJoin(p: Path)
    requires p != [] && forall i :: 0 <= i < |p| ==> '/' !in p[i]
    ensures SplitOn('/', Join(p)) == p
  {
    if |p| == 1 {
      SplitName('/', p[0]);
    } else {
      SplitJoin(p[1..]);
      SplitAtFirst('/', p[0], Join(p[1..]));
      assert [p[0]] + p[1..] == p;
    }
  }

  /** So the text decides the depth limit. */
  lemma ValidDepth(t: Tree, p: Path)
    requires IsTree(t) && p in t && ValidRelative(Join(p))
    ensures |p| <= MAX_DEPTH
  {
    forall i | 0 <= i < |p| ensures '/' !in p[i] { NamesOfPath(t, p, i); }
    SplitJoin(p);
  }

  lemma {:induction false} NamesOfPath(t: Tree, p: Path, i: nat)
    requires IsTree(t) && p in t && i < |p|
    ensures IsName(p[i])
    decreases |p|
  {
    assert Placed(t, p);
    if i < |p| - 1 {
      NamesOfPath(t, p[..|p| - 1], i);
    }
  }

  // ----- the order of the inventory -----

  /** Component by component; a directory comes before what is in it. */
  predicate PathLess(a: Path, b: Path) {
    if b == [] then false
    else if a == [] then true
    else LexLess(a[0], b[0]) || (a[0] == b[0] && PathLess(a[1..], b[1..]))
  }

  lemma {:induction false} PathLessIrreflexive(a: Path, b: Path)
    requires PathLess(a, b)
    ensures a != b && !PathLess(b, a)
  {
    if a != [] {
      LexTotal(a[0], b[0]);
      if a[0] == b[0] {
        PathLessIrreflexive(a[1..], b[1..]);
        assert a == [a[0]] + a[1..] && b == [b[0]] + b[1..];
      }
    }
  }

  lemma {:induction false} PathLessBelow(a: Path, b: Path)
    requires |a| < |b| && b[..|a|] == a
    ensures PathLess(a, b)
  {
    if a != [] {
      assert b[1..][..|a| - 1] == a[1..];
      assert b[0] == b[..|a|][0];
      PathLessBelow(a[1..], b[1..]);
    }
  }

  /** Below one directory the next name decides. */
  lemma {:induction false} PathLessBeside(prefix: Path, a: Path, b: Path)
    requires |a| > |prefix| && |b| > |prefix| && a[..|prefix|] == prefix == b[..|prefix|]
    requires LexLess(a[|prefix|], b[|prefix|])
    ensures PathLess(a, b)
  {
    if prefix != [] {
      assert a[1..][..|prefix| - 1] == prefix[1..] && b[1..][..|prefix| - 1] == prefix[1..];
      assert a[0] == a[..|prefix|][0] && b[0] == b[..|prefix|][0];
      PathLessBeside(prefix[1..], a[1..], b[1..]);
    }
  }

  // ----- sorted names -----

  ghost predicate SortedNames(s: seq<string>) {
    forall i, j :: 0 <= i < j < |s| ==> LexLess(s[i], s[j])
  }

  ghost predicate IsListing(s: seq<string>, names: set<string>) {
    SortedNames(s) && forall n :: n in s <==> n in names
  }

  lemma {:induction false} ListingUnique(a: seq<string>, b: seq<string>, names: set<string>)
    requires IsListing(a, names) && IsListing(b, names)
    ensures a == b
  {
    assert b != [] ==> b[0] in b;
    if a != [] {
      assert a[0] in names;
      assert b[0] in names;
      var i :| 0 <= i < |b| && b[i] == a[0];
      var j :| 0 <= j < |a| && a[j] == b[0];
      LexTotal(a[0], b[0]);
      assert a[0] == b[0];
      RestListing(a, names);
      RestListing(b, names);
      ListingUnique(a[1..], b[1..], names - {a[0]});
      assert a == [a[0]] + a[1..] && b == [b[0]] + b[1..];
    }
  }

  lemma RestListing(a: seq<string>, names: set<string>)
    requires IsListing(a, names) && a != []
    ensures IsListing(a[1..], names - {a[0]})
  {
    forall n ensures n in a[1..] <==> n in names - {a[0]} {
      if n in a[1..] {
        var i :| 0 <= i < |a[1..]| && a[1..][i] == n;
        assert LexLess(a[0], a[i + 1]);
        LexTotal(a[0], n);
      }
      if n in names && n != a[0] {
        var i :| 0 <= i < |a| && a[i] == n;
        assert a[1..][i - 1] == n;
      }
    }
  }

  lemma LexLEIsOrder()
    ensures TotalPreorder(LexLE)
  {
    forall x, y ensures LexLE(x, y) || LexLE(y, x) { LexTotal(x, y); }
    forall x, y, z | LexLE(x, y) && LexLE(y, z) ensures LexLE(x, z) {
      if x != y && y != z { LexTransitive(x, y, z); }
    }
  }

  /** Sorting the names in any order of arrival gives the listing. */
  lemma SortingLists(arrived: seq<string>, names: set<string>)
    requires NoDup(arrived) && forall n :: n in arrived <==> n in names
    ensures IsListing(SortBy(LexLE, arrived), names)
  {
    var s := SortBy(LexLE, arrived);
    LexLEIsOrder();
    SortBySorts(LexLE, arrived);
    SortByKeepsNoDup(LexLE, arrived);
    forall n ensures n in s <==> n in names { InSameMultiset(s, arrived, n); }
  }

  predicate IsLeast(n: string, names: set<string>) {
    n in names && forall m :: m in names ==> LexLE(n, m)
  }

  lemma {:induction false} SomeLeast(names: set<string>)
    requires names != {}
    ensures exists n :: IsLeast(n, names)
    decreases |names|
  {
    var n :| n in names;
    var rest := names - {n};
    if rest == {} {
      assert names == {n};
      assert IsLeast(n, names);
    } else {
      SomeLeast(rest);
      var k :| IsLeast(k, rest);
      LexTotal(k, n);
      var least := if LexLE(k, n) then k else n;
      forall m | m in names ensures LexLE(least, m) {
        assert m != n ==> m in rest;
        if least == n && m != n && m != k {
          assert LexLE(k, m);
          LexTransitive(n, k, m);
        }
      }
      assert IsLeast(least, names);
    }
  }

  lemma OneLeast(a: string, b: string, names: set<string>)
    requires IsLeast(a, names) && IsLeast(b, names)
    ensures a == b
  {
    LexTotal(a, b);
  }

  lemma ConsListing(n: string, s: seq<string>, names: set<string>)
    requires IsLeast(n, names) && IsListing(s, names - {n})
    ensures IsListing([n] + s, names)
  {
    var r := [n] + s;
    forall i, j | 0 <= i < j < |r| ensures LexLess(r[i], r[j]) {
      assert r[j] == s[j - 1] && s[j - 1] in s;
    }
  }

  /** The names in order, least first. */
  function Listing(names: set<string>): (s: seq<string>)
    ensures IsListing(s, names)
  {
    if names == {} then []
    else
      SomeLeast(names);
      assert forall a, b :: IsLeast(a, names) && IsLeast(b, names) ==> a == b by {
        forall a, b | IsLeast(a, names) && IsLeast(b, names) ensures a == b { OneLeast(a, b, names); }
      }
      var n :| IsLeast(n, names);
      ConsListing(n, Listing(names - {n}), names);
      [n] + Listing(names - {n})
  }

  lemma NameIsIn(t: Tree, prefix: Path, name: string)
    ensures name in NamesIn(t, prefix) <==> prefix + [name] in t
  {
    if prefix + [name] in t {
      assert (prefix + [name])[..|prefix|] == prefix && (prefix + [name])[|prefix|] == name;
    }
    if name in NamesIn(t, prefix) {
      var p :| p in t && |p| == |prefix| + 1 && p[..|prefix|] == prefix && p[|prefix|] == name;
      assert p == prefix + [name];
    }
  }

  /** The sorted names of a directory. */
  function Listed(t: Tree, prefix: Path): (s: seq<string>)
    ensures IsListing(s, NamesIn(t, prefix))
    ensures forall i :: 0 <= i < |s| ==> prefix + [s[i]] in t
  {
    var s := Listing(NamesIn(t, prefix));
    assert forall i :: 0 <= i < |s| ==> prefix + [s[i]] in t by {
      forall i | 0 <= i < |s| ensures prefix + [s[i]] in t {
        assert s[i] in s;
        NameIsIn(t, prefix, s[i]);
      }
    }
    s
  }

  // ----- the budget and the walk -----

  datatype Progress = Progress(output: seq<Entry>, bytes: nat, entries: nat)

  function Charge(s: Progress, n: nat): Option<Progress> {
    if s.bytes + n > MAX_BYTES || s.entries + 1 > MAX_ENTRIES then None
    else Some(s.(bytes := s.bytes + n, entries := s.entries + 1))
  }

  function ChargeNames(s: Progress, count: nat): Option<Progress>
    decreases count
  {
    if count == 0 then Some(s)
    else match Charge(s, 0) case None => None case Some(s1) => ChargeNames(s1, count - 1)
  }

  /** Each read returns something, up to a chunk, and together they return the whole file. */
  predicate AreReads(parts: seq<nat>, size: nat) {
    if parts == [] then size == 0
    else 0 < parts[0] <= CHUNK && parts[0] <= size && AreReads(parts[1..], size - parts[0])
  }

  function ChargeReads(s: Progress, parts: seq<nat>): Option<Progress>
    decreases |parts|
  {
    if parts == [] then Some(s)
    else match Charge(s, parts[0]) case None => None case Some(s1) => ChargeReads(s1, parts[1..])
  }

  /** A whole chunk each time, until the last. */
  function FullReads(size: nat): seq<nat> {
    if size == 0 then [] else var n := if size < CHUNK then size else CHUNK; [n] + FullReads(size - n)
  }

  lemma {:induction false} FullReadsAreReads(size: nat)
    ensures AreReads(FullReads(size), size)
    decreases size
  {
    if size > 0 {
      var n := if size < CHUNK then size else CHUNK;
      assert FullReads(size)[1..] == FullReads(size - n);
      FullReadsAreReads(size - n);
    }
  }

  /** How the reads of a file turn out: the sizes they return, given its path and its size. */
  type Cut = (Path, nat) -> seq<nat>

  ghost predicate IsCut(cut: Cut) {
    forall p, n :: AreReads(cut(p, n), n)
  }

  function Full(p: Path, n: nat): seq<nat> {
    FullReads(n)
  }

  lemma FullIsCut()
    ensures IsCut(Full)
  {
    forall n: nat ensures AreReads(FullReads(n), n) { FullReadsAreReads(n); }
  }

  function Push(s: Progress, e: Entry): Progress {
    s.(output := s.output + [e])
  }

  type Hash = Bytes -> string

  function WalkDir(h: Hash, cut: Cut, t: Tree, prefix: Path, source: bool, s: Progress): Option<Progress>
    requires IsTree(t) && |prefix| <= MAX_DEPTH
    decreases MAX_DEPTH - |prefix|, 1, 0
  {
    var names := Listed(t, prefix);
    match ChargeNames(s, |names|) case None => None case Some(s1) => WalkNames(h, cut, t, prefix, names, source, s1)
  }

  function WalkNames(h: Hash, cut: Cut, t: Tree, prefix: Path, names: seq<string>, source: bool,
                     s: Progress): Option<Progress>
    requires IsTree(t) && |prefix| <= MAX_DEPTH && forall i :: 0 <= i < |names| ==> prefix + [names[i]] in t
    decreases MAX_DEPTH - |prefix|, 0, |names|
  {
    if names == [] then Some(s)
    else match WalkEntry(h, cut, t, prefix, names[0], source, s)
      case None => None
      case Some(s1) =>
        assert forall i :: 0 <= i < |names[1..]| ==> names[1..][i] == names[i + 1];
        WalkNames(h, cut, t, prefix, names[1..], source, s1)
  }

  /** One name of a directory: checked, left out, listed, or listed and entered. */
  function WalkEntry(h: Hash, cut: Cut, t: Tree, prefix: Path, name: string, source: bool,
                     s: Progress): Option<Progress>
    requires IsTree(t) && |prefix| <= MAX_DEPTH && prefix + [name] in t
    decreases MAX_DEPTH - |prefix|, 0, 0
  {
    var path := prefix + [name];
    if !ValidRelative(Join(path)) then None
    else
      ValidDepth(t, path);
      if source && Excluded(Join(path)) then Some(s)
      else match t[path]
        case Other => None
        case Dir => WalkDir(h, cut, t, path, source, Push(s, Directory(path)))
        case File(bytes) =>
          if |bytes| > MAX_FILE then None
          else match ChargeReads(s, cut(path, |bytes|))
            case None => None
            case Some(s1) => Some(Push(s1, FileEntry(path, |bytes|, h(bytes))))
  }

  function InventoryBy(h: Hash, cut: Cut, t: Tree, source: bool): Option<seq<Entry>>
    requires IsTree(t)
  {
    match WalkDir(h, cut, t, [], source, Progress([], 0, 0)) case None => None case Some(s) => Some(s.output)
  }

  /** The inventory when every read returns a whole chunk, until the last. */
  function Inventory(h: Hash, t: Tree, source: bool): Option<seq<Entry>>
    requires IsTree(t)
  {
    InventoryBy(h, Full, t, source)
  }

  // ----- what an inventory is -----

  /** Nothing on the way down to `p` is left out. */
  ghost predicate Shown(source: bool, p: Path, from: nat) {
    source ==> forall k :: from < k <= |p| ==> !Excluded(Join(p[..k]))
  }

  /** The outputs of builds, tests and tools at the root. */
  predicate IsOutput(name: string) {
    name in {".cache", ".git", ".refact", ".vite", "coverage", "dist", "node_modules", "playwright-report",
             "storybook-static", "test-results"}
    || "vite.config.ts.timestamp-" <= name || "vite.node.config.ts.timestamp-" <= name
  }

  /** Component by component: an output or the linter's cache at the root, or a compiler's cache anywhere. */
  ghost predicate LeftOut(p: Path) {
    (p != [] && (IsOutput(p[0]) || p[0] == ".eslintcache"))
    || exists k :: 0 <= k < |p| && EndsWith(p[k], ".tsbuildinfo")
  }

  lemma StartOfJoin(p: Path, w: string)
    requires p != [] && '/' !in w
    ensures StartsWith(Join(p), w) <==> w <= p[0]
  {
    if |p| > 1 { SlashInside(w, p[0], Join(p[1..])); }
  }

  lemma SlashInside(w: string, a: string, rest: string)
    ensures w <= a + "/" + rest && |w| > |a| ==> '/' in w
    ensures EndsWith(a + "/" + rest, w) && |w| > |rest| ==> '/' in w
  {
    var whole := a + "/" + rest;
    assert whole[|a|] == '/';
    if w <= whole && |w| > |a| { assert w[|a|] == '/'; }
    if EndsWith(whole, w) && |w| > |rest| { assert w[|w| - |rest| - 1] == whole[|a|]; }
  }

  lemma {:induction false} EndOfJoin(p: Path, w: string)
    requires p != [] && '/' !in w
    ensures EndsWith(Join(p), w) <==> EndsWith(p[|p| - 1], w)
  {
    if |p| > 1 {
      EndOfJoin(p[1..], w);
      var rest, whole := Join(p[1..]), Join(p);
      SlashInside(w, p[0], rest);
      if |w| <= |rest| { assert whole[|whole| - |w|..] == rest[|rest| - |w|..]; }
    }
  }

  lemma JoinIsName(p: Path, name: string)
    requires p != [] && (forall i :: 0 <= i < |p| ==> '/' !in p[i]) && '/' !in name
    ensures Join(p) == name <==> p == [name]
  {
    SplitJoin(p);
    SplitName('/', name);
  }

  lemma ExcludedIs(p: Path)
    requires p != [] && forall i :: 0 <= i < |p| ==> '/' !in p[i]
    ensures Excluded(Join(p)) <==> IsOutput(p[0]) || p == [".eslintcache"] || EndsWith(p[|p| - 1], ".tsbuildinfo")
  {
    SplitJoin(p);
    StartOfJoin(p, "vite.config.ts.timestamp-");
    StartOfJoin(p, "vite.node.config.ts.timestamp-");
    EndOfJoin(p, ".tsbuildinfo");
    JoinIsName(p, ".eslintcache");
    ExcludedParts(Join(p), p[0]);
  }

  lemma ExcludedParts(relative: string, root: string)
    requires SplitOn('/', relative)[0] == root
    requires StartsWith(relative, "vite.config.ts.timestamp-") <==> "vite.config.ts.timestamp-" <= root
    requires StartsWith(relative, "vite.node.config.ts.timestamp-") <==> "vite.node.config.ts.timestamp-" <= root
    ensures Excluded(relative) <==> IsOutput(root) || relative == ".eslintcache" || EndsWith(relative, ".tsbuildinfo")
  {
  }

  /** The inventory of a source shows exactly the paths that are not left out. */
  lemma ShownExactly(t: Tree, p: Path)
    requires IsTree(t) && p in t
    ensures Shown(true, p, 0) <==> !LeftOut(p)
    ensures Shown(false, p, 0)
  {
    assert Placed(t, p);
    forall k | 0 <= k < |p| ensures '/' !in p[k] { NamesOfPath(t, p, k); }
    forall k | 0 < k <= |p| ensures Excluded(Join(p[..k])) ==> LeftOut(p) {
      ExcludedIs(p[..k]);
    }
    if LeftOut(p) {
      if k :| 0 <= k < |p| && EndsWith(p[k], ".tsbuildinfo") {
        ExcludedIs(p[..k + 1]);
        assert Excluded(Join(p[..k + 1]));
      } else {
        ExcludedIs(p[..1]);
        assert Excluded(Join(p[..1]));
      }
    }
  }

  ghost predicate InScope(t: Tree, source: bool, prefix: Path, names: seq<string>, p: Path) {
    p in t && |p| > |prefix| && p[..|prefix|] == prefix && p[|prefix|] in names && Shown(source, p, |prefix|)
  }

  ghost predicate InOrder(es: seq<Entry>) {
    forall i, j :: 0 <= i < j < |es| ==> PathLess(es[i].path, es[j].path)
  }

  predicate Matches(h: Hash, t: Tree, e: Entry) {
    && e.path in t
    && match e
       case Directory(_) => t[e.path].Dir?
       case FileEntry(_, size, sha256) =>
         t[e.path].File? && size == |t[e.path].bytes| <= MAX_FILE && sha256 == h(t[e.path].bytes)
  }

  ghost predicate Has(es: seq<Entry>, p: Path) {
    exists i :: 0 <= i < |es| && es[i].path == p
  }

  /** Exactly the shown paths below the names, once each, in order, each as it is in the tree. */
  ghost predicate Lists(h: Hash, t: Tree, source: bool, prefix: Path, names: seq<string>, es: seq<Entry>) {
    && InOrder(es)
    && (forall i :: 0 <= i < |es| ==> Matches(h, t, es[i]))
    && (forall p :: Has(es, p) <==> InScope(t, source, prefix, names, p))
  }

  /** The whole inventory: every shown path of the tree. */
  ghost predicate IsInventory(h: Hash, t: Tree, source: bool, es: seq<Entry>) {
    && InOrder(es)
    && (forall i :: 0 <= i < |es| ==> Matches(h, t, es[i]))
    && (forall p :: Has(es, p) <==> p in t && Shown(source, p, 0))
  }

  lemma {:induction false} AncestorIsDir(t: Tree, p: Path, k: nat)
    requires IsTree(t) && p in t && 0 < k < |p|
    ensures p[..k] in t && t[p[..k]].Dir?
    decreases |p|
  {
    assert Placed(t, p);
    if k < |p| - 1 {
      AncestorIsDir(t, p[..|p| - 1], k);
      assert p[..|p| - 1][..k] == p[..k];
    }
  }

  lemma HasConcat(a: seq<Entry>, b: seq<Entry>, p: Path)
    ensures Has(a + b, p) <==> Has(a, p) || Has(b, p)
  {
    if i :| 0 <= i < |a| && a[i].path == p { assert (a + b)[i].path == p; }
    if i :| 0 <= i < |b| && b[i].path == p { assert (a + b)[|a| + i].path == p; }
  }

  lemma OrderConcat(a: seq<Entry>, b: seq<Entry>)
    requires InOrder(a) && InOrder(b) && forall i, j :: 0 <= i < |a| && 0 <= j < |b| ==> PathLess(a[i].path, b[j].path)
    ensures InOrder(a + b)
  {
    var c := a + b;
    forall i, j | 0 <= i < j < |c| ensures PathLess(c[i].path, c[j].path) {
    }
  }

  lemma ListsJoin(h: Hash, t: Tree, source: bool, prefix: Path, name: string, rest: seq<string>, a: seq<Entry>,
                  b: seq<Entry>)
    requires Lists(h, t, source, prefix, [name], a) && Lists(h, t, source, prefix, rest, b)
    requires forall n :: n in rest ==> LexLess(name, n)
    ensures Lists(h, t, source, prefix, [name] + rest, a + b)
  {
    forall i, j | 0 <= i < |a| && 0 <= j < |b| ensures PathLess(a[i].path, b[j].path) {
      assert Has(a, a[i].path) && Has(b, b[j].path);
      PathLessBeside(prefix, a[i].path, b[j].path);
    }
    OrderConcat(a, b);
    forall p ensures Has(a + b, p) <==> InScope(t, source, prefix, [name] + rest, p) { HasConcat(a, b, p); }
  }

  lemma ListsFile(h: Hash, t: Tree, source: bool, prefix: Path, name: string)
    requires IsTree(t) && prefix + [name] in t && t[prefix + [name]].File? && |t[prefix + [name]].bytes| <= MAX_FILE
    requires !(source && Excluded(Join(prefix + [name])))
    ensures var bytes := t[prefix + [name]].bytes;
            Lists(h, t, source, prefix, [name], [FileEntry(prefix + [name], |bytes|, h(bytes))])
  {
    var path := prefix + [name];
    var es := [FileEntry(path, |t[path].bytes|, h(t[path].bytes))];
    forall p ensures Has(es, p) <==> InScope(t, source, prefix, [name], p) {
      if InScope(t, source, prefix, [name], p) {
        assert p[..|path|] == path;
        if |p| > |path| { AncestorIsDir(t, p, |path|); }
      }
      if p == path { assert path[..|path|] == path && es[0].path == p; }
    }
  }

  lemma ListsExcluded(h: Hash, t: Tree, source: bool, prefix: Path, name: string)
    requires source && Excluded(Join(prefix + [name]))
    ensures Lists(h, t, source, prefix, [name], [])
  {
    forall p ensures !InScope(t, source, prefix, [name], p) {
      if |p| > |prefix| && p[..|prefix|] == prefix && p[|prefix|] == name {
        assert p[..|prefix| + 1] == prefix + [name];
      }
    }
  }

  lemma ListsDir(h: Hash, t: Tree, source: bool, prefix: Path, name: string, es: seq<Entry>)
    requires IsTree(t) && prefix + [name] in t && t[prefix + [name]].Dir?
             && !(source && Excluded(Join(prefix + [name])))
    requires Lists(h, t, source, prefix + [name], Listed(t, prefix + [name]), es)
    ensures Lists(h, t, source, prefix, [name], [Directory(prefix + [name])] + es)
  {
    var path := prefix + [name];
    var head := [Directory(path)];
    forall i, j | 0 <= i < |head| && 0 <= j < |es| ensures PathLess(head[i].path, es[j].path) {
      assert Has(es, es[j].path);
      PathLessBelow(path, es[j].path);
    }
    OrderConcat(head, es);
    forall p ensures Has(head + es, p) <==> InScope(t, source, prefix, [name], p) {
      HasConcat(head, es, p);
      DirScope(t, source, prefix, name, p);
      if p == path { assert head[0].path == p; }
    }
  }

  lemma DirScope(t: Tree, source: bool, prefix: Path, name: string, p: Path)
    requires IsTree(t) && prefix + [name] in t && !(source && Excluded(Join(prefix + [name])))
    ensures var path := prefix + [name];
            InScope(t, source, prefix, [name], p) <==> p == path || InScope(t, source, path, Listed(t, path), p)
  {
    var path := prefix + [name];
    assert path[..|path|] == path && path[..|prefix|] == prefix;
    if |p| > |prefix| && p[..|prefix|] == prefix && p[|prefix|] == name {
      assert p[..|path|] == path;
      if p in t && |p| > |path| { ChildIsListed(t, path, p); }
    }
    if |p| > |path| && p[..|path|] == path {
      assert p[..|prefix|] == path[..|prefix|] && p[|prefix|] == path[|prefix|];
    }
  }

  lemma ChildIsListed(t: Tree, path: Path, p: Path)
    requires IsTree(t) && p in t && |p| > |path| && p[..|path|] == path
    ensures p[|path|] in Listed(t, path)
  {
    var child := path + [p[|path|]];
    assert p[..|path| + 1] == child;
    if |p| > |path| + 1 { AncestorIsDir(t, p, |path| + 1); } else { assert p == child; }
    NameIsIn(t, path, p[|path|]);
  }

  // ----- the walk lists the tree -----

  lemma {:induction false} ChargesKeepOutput(s: Progress, n: nat)
    ensures ChargeNames(s, n).Some? ==> ChargeNames(s, n).value.output == s.output
    decreases n
  {
    if n > 0 && Charge(s, 0).Some? { ChargesKeepOutput(Charge(s, 0).value, n - 1); }
  }

  lemma {:induction false} ReadsKeepOutput(s: Progress, parts: seq<nat>)
    ensures ChargeReads(s, parts).Some? ==> ChargeReads(s, parts).value.output == s.output
    decreases |parts|
  {
    if parts != [] && Charge(s, parts[0]).Some? { ReadsKeepOutput(Charge(s, parts[0]).value, parts[1..]); }
  }

  lemma {:induction false} WalkDirLists(h: Hash, cut: Cut, t: Tree, prefix: Path, source: bool, s: Progress)
    returns (es: seq<Entry>)
    requires IsTree(t) && |prefix| <= MAX_DEPTH && WalkDir(h, cut, t, prefix, source, s).Some?
    ensures WalkDir(h, cut, t, prefix, source, s).value.output == s.output + es
    ensures Lists(h, t, source, prefix, Listed(t, prefix), es)
    decreases MAX_DEPTH - |prefix|, 1, 0
  {
    var names := Listed(t, prefix);
    ChargesKeepOutput(s, |names|);
    es := WalkNamesLists(h, cut, t, prefix, names, source, ChargeNames(s, |names|).value);
  }

  lemma {:induction false} WalkNamesLists(h: Hash, cut: Cut, t: Tree, prefix: Path, names: seq<string>, source: bool,
                                          s: Progress)
    returns (es: seq<Entry>)
    requires IsTree(t) && |prefix| <= MAX_DEPTH && SortedNames(names)
    requires forall i :: 0 <= i < |names| ==> prefix + [names[i]] in t
    requires WalkNames(h, cut, t, prefix, names, source, s).Some?
    ensures WalkNames(h, cut, t, prefix, names, source, s).value.output == s.output + es
    ensures Lists(h, t, source, prefix, names, es)
    decreases MAX_DEPTH - |prefix|, 0, |names|
  {
    if names == [] {
      es := [];
      ListsNothing(h, t, source, prefix);
    } else {
      RestNames(t, prefix, names);
      var a := WalkEntryLists(h, cut, t, prefix, names[0], source, s);
      var s1 := WalkEntry(h, cut, t, prefix, names[0], source, s).value;
      var b := WalkNamesLists(h, cut, t, prefix, names[1..], source, s1);
      ListsJoin(h, t, source, prefix, names[0], names[1..], a, b);
      es := a + b;
    }
  }

  lemma ListsNothing(h: Hash, t: Tree, source: bool, prefix: Path)
    ensures Lists(h, t, source, prefix, [], [])
  {
  }

  lemma RestNames(t: Tree, prefix: Path, names: seq<string>)
    requires names != [] && SortedNames(names) && forall i :: 0 <= i < |names| ==> prefix + [names[i]] in t
    ensures SortedNames(names[1..]) && forall n :: n in names[1..] ==> LexLess(names[0], n)
    ensures forall i :: 0 <= i < |names[1..]| ==> prefix + [names[1..][i]] in t
    ensures prefix + [names[0]] in t && [names[0]] + names[1..] == names
  {
    assert forall i :: 0 <= i < |names[1..]| ==> names[1..][i] == names[i + 1];
  }

  lemma {:induction false} WalkEntryLists(h: Hash, cut: Cut, t: Tree, prefix: Path, name: string, source: bool,
                                          s: Progress)
    returns (es: seq<Entry>)
    requires IsTree(t) && |prefix| <= MAX_DEPTH && prefix + [name] in t
    requires WalkEntry(h, cut, t, prefix, name, source, s).Some?
    ensures WalkEntry(h, cut, t, prefix, name, source, s).value.output == s.output + es
    ensures Lists(h, t, source, prefix, [name], es)
    decreases MAX_DEPTH - |prefix|, 0, 0
  {
    var path := prefix + [name];
    ValidDepth(t, path);
    if source && Excluded(Join(path)) {
      es := [];
      ListsExcluded(h, t, source, prefix, name);
    } else if t[path].Dir? {
      var below := WalkDirLists(h, cut, t, path, source, Push(s, Directory(path)));
      ListsDir(h, t, source, prefix, name, below);
      es := [Directory(path)] + below;
    } else {
      ReadsKeepOutput(s, cut(path, |t[path].bytes|));
      ListsFile(h, t, source, prefix, name);
      es := [FileEntry(path, |t[path].bytes|, h(t[path].bytes))];
    }
  }

  /** An inventory that is not refused lists exactly the shown paths of the tree, in order. */
  lemma InventoryByLists(h: Hash, cut: Cut, t: Tree, source: bool)
    requires IsTree(t)
    ensures var r := InventoryBy(h, cut, t, source); r.Some? ==> IsInventory(h, t, source, r.value)
  {
    if InventoryBy(h, cut, t, source).Some? {
      var es := WalkDirLists(h, cut, t, [], source, Progress([], 0, 0));
      assert [] + es == es;
      ListsAll(h, t, source, es);
    }
  }

  lemma InventoryLists(h: Hash, t: Tree, source: bool)
    requires IsTree(t)
    ensures var r := Inventory(h, t, source); r.Some? ==> IsInventory(h, t, source, r.value)
  {
    InventoryByLists(h, Full, t, source);
  }

  lemma ListsAll(h: Hash, t: Tree, source: bool, es: seq<Entry>)
    requires IsTree(t) && Lists(h, t, source, [], Listed(t, []), es)
    ensures IsInventory(h, t, source, es)
  {
    forall p ensures Has(es, p) <==> p in t && Shown(source, p, 0) { WholeScope(t, source, p); }
  }

  lemma WholeScope(t: Tree, source: bool, p: Path)
    requires IsTree(t)
    ensures InScope(t, source, [], Listed(t, []), p) <==> p in t && Shown(source, p, 0)
  {
    if p in t {
      assert Placed(t, p);
      assert p[..0] == [];
      ChildIsListed(t, [], p);
    }
  }

  // ----- the budget bounds what is listed -----

  function SizeOf(e: Entry): nat {
    if e.FileEntry? then e.size else 0
  }

  function TotalSize(es: seq<Entry>): nat {
    if es == [] then 0 else TotalSize(es[..|es| - 1]) + SizeOf(es[|es| - 1])
  }

  /** `s'` was reached from `s` with at most `owed` more entries listed than names charged. */
  predicate Spent(s: Progress, s': Progress, owed: nat) {
    && s.entries <= s'.entries && (s.entries <= MAX_ENTRIES ==> s'.entries <= MAX_ENTRIES)
    && (s.bytes <= MAX_BYTES ==> s'.bytes <= MAX_BYTES)
    && |s'.output| - |s.output| <= s'.entries - s.entries + owed
    && TotalSize(s'.output) - TotalSize(s.output) == s'.bytes - s.bytes
  }

  lemma {:induction false} NamesSpent(s: Progress, n: nat)
    ensures var r := ChargeNames(s, n);
            r.Some? ==> Spent(s, r.value, 0) && r.value.entries == s.entries + n && r.value.output == s.output
    decreases n
  {
    if n > 0 && Charge(s, 0).Some? { NamesSpent(Charge(s, 0).value, n - 1); }
  }

  lemma {:induction false} ReadsSpent(s: Progress, parts: seq<nat>, size: nat)
    requires AreReads(parts, size)
    ensures var r := ChargeReads(s, parts);
            r.Some? ==> && r.value.output == s.output && r.value.bytes == s.bytes + size && r.value.entries >= s.entries
                        && (s.entries <= MAX_ENTRIES ==> r.value.entries <= MAX_ENTRIES)
                        && (s.bytes <= MAX_BYTES ==> r.value.bytes <= MAX_BYTES)
    decreases |parts|
  {
    if parts != [] && Charge(s, parts[0]).Some? { ReadsSpent(Charge(s, parts[0]).value, parts[1..], size - parts[0]); }
  }

  lemma PushSize(es: seq<Entry>, e: Entry)
    ensures TotalSize(es + [e]) == TotalSize(es) + SizeOf(e)
  {
    assert (es + [e])[..|es|] == es;
  }

  lemma {:induction false} WalkDirSpent(h: Hash, cut: Cut, t: Tree, prefix: Path, source: bool, s: Progress)
    requires IsCut(cut) && IsTree(t) && |prefix| <= MAX_DEPTH
    ensures var r := WalkDir(h, cut, t, prefix, source, s); r.Some? ==> Spent(s, r.value, 0)
    decreases MAX_DEPTH - |prefix|, 1, 0
  {
    var names := Listed(t, prefix);
    NamesSpent(s, |names|);
    if ChargeNames(s, |names|).Some? {
      WalkNamesSpent(h, cut, t, prefix, names, source, ChargeNames(s, |names|).value);
    }
  }

  lemma {:induction false} WalkNamesSpent(h: Hash, cut: Cut, t: Tree, prefix: Path, names: seq<string>, source: bool,
                                          s: Progress)
    requires IsCut(cut) && IsTree(t) && |prefix| <= MAX_DEPTH
             && forall i :: 0 <= i < |names| ==> prefix + [names[i]] in t
    ensures var r := WalkNames(h, cut, t, prefix, names, source, s); r.Some? ==> Spent(s, r.value, |names|)
    decreases MAX_DEPTH - |prefix|, 0, |names|
  {
    if names != [] {
      WalkEntrySpent(h, cut, t, prefix, names[0], source, s);
      var first := WalkEntry(h, cut, t, prefix, names[0], source, s);
      if first.Some? {
        assert forall i :: 0 <= i < |names[1..]| ==> names[1..][i] == names[i + 1];
        WalkNamesSpent(h, cut, t, prefix, names[1..], source, first.value);
      }
    }
  }

  lemma {:induction false} WalkEntrySpent(h: Hash, cut: Cut, t: Tree, prefix: Path, name: string, source: bool,
                                          s: Progress)
    requires IsCut(cut) && IsTree(t) && |prefix| <= MAX_DEPTH && prefix + [name] in t
    ensures var r := WalkEntry(h, cut, t, prefix, name, source, s); r.Some? ==> Spent(s, r.value, 1)
    decreases MAX_DEPTH - |prefix|, 0, 0
  {
    var path := prefix + [name];
    if ValidRelative(Join(path)) && !(source && Excluded(Join(path))) {
      ValidDepth(t, path);
      match t[path]
      case Other =>
      case Dir =>
        PushSize(s.output, Directory(path));
        WalkDirSpent(h, cut, t, path, source, Push(s, Directory(path)));
      case File(bytes) =>
        ReadsSpent(s, cut(path, |bytes|), |bytes|);
        PushSize(s.output, FileEntry(path, |bytes|, h(bytes)));
    }
  }

  /** No inventory lists more entries or more bytes than the limits. */
  lemma InventoryIsBounded(h: Hash, cut: Cut, t: Tree, source: bool)
    requires IsCut(cut) && IsTree(t)
    ensures var r := InventoryBy(h, cut, t, source);
            r.Some? ==> |r.value| <= MAX_ENTRIES && TotalSize(r.value) <= MAX_BYTES
  {
    WalkDirSpent(h, cut, t, [], source, Progress([], 0, 0));
  }

  /** Two trees with one inventory have the same paths, directories and file contents up to the hash. */
  lemma InventoryDetermines(h: Hash, t: Tree, u: Tree)
    requires IsTree(t) && IsTree(u) && Inventory(h, t, false).Some? && Inventory(h, t, false) == Inventory(h, u, false)
    ensures t.Keys == u.Keys
    ensures forall p :: p in t ==>
            t[p] == u[p] || (t[p].File? && u[p].File? && |t[p].bytes| == |u[p].bytes| && h(t[p].bytes) == h(u[p].bytes))
  {
    var es := Inventory(h, t, false).value;
    InventoryLists(h, t, false);
    InventoryLists(h, u, false);
    forall p ensures p in t <==> p in u {
      assert Has(es, p) <==> p in t;
      assert Has(es, p) <==> p in u;
    }
    forall p | p in t
      ensures t[p] == u[p] || (t[p].File? && u[p].File? && |t[p].bytes| == |u[p].bytes|
              && h(t[p].bytes) == h(u[p].bytes))
    {
      assert Has(es, p);
      var i :| 0 <= i < |es| && es[i].path == p;
      assert Matches(h, t, es[i]) && Matches(h, u, es[i]);
    }
  }

  // ----- one tree, one list -----

  lemma FirstIsLeast(es: seq<Entry>, p: Path)
    requires es != [] && InOrder(es) && Has(es, p)
    ensures p == es[0].path || PathLess(es[0].path, p)
  {
    var i :| 0 <= i < |es| && es[i].path == p;
    if i > 0 { assert PathLess(es[0].path, es[i].path); }
  }

  lemma RestHas(es: seq<Entry>, p: Path)
    requires es != [] && InOrder(es)
    ensures Has(es[1..], p) <==> Has(es, p) && p != es[0].path
    ensures InOrder(es[1..])
  {
    var rest := es[1..];
    forall i, j | 0 <= i < j < |rest| ensures PathLess(rest[i].path, rest[j].path) {
      assert rest[i] == es[i + 1] && rest[j] == es[j + 1];
    }
    if i :| 0 <= i < |rest| && rest[i].path == p {
      assert es[i + 1].path == p;
      PathLessIrreflexive(es[0].path, es[i + 1].path);
    }
    if Has(es, p) && p != es[0].path {
      var i :| 0 <= i < |es| && es[i].path == p;
      assert rest[i - 1].path == p;
    }
  }

  lemma SameEntry(h: Hash, t: Tree, a: Entry, b: Entry)
    requires Matches(h, t, a) && Matches(h, t, b) && a.path == b.path
    ensures a == b
  {
  }

  /** Two ordered lists of one tree that name the same paths are the same list. */
  lemma {:induction false} ListUnique(h: Hash, t: Tree, a: seq<Entry>, b: seq<Entry>)
    requires InOrder(a) && InOrder(b) && forall p :: Has(a, p) <==> Has(b, p)
    requires forall i :: 0 <= i < |a| ==> Matches(h, t, a[i])
    requires forall i :: 0 <= i < |b| ==> Matches(h, t, b[i])
    ensures a == b
  {
    if a != [] || b != [] {
      assert a != [] ==> Has(a, a[0].path);
      assert b != [] ==> Has(b, b[0].path);
      var p, q := a[0].path, b[0].path;
      FirstIsLeast(a, q);
      FirstIsLeast(b, p);
      if p != q { PathLessIrreflexive(p, q); }
      SameEntry(h, t, a[0], b[0]);
      forall x ensures Has(a[1..], x) <==> Has(b[1..], x) {
        RestHas(a, x);
        RestHas(b, x);
      }
      RestHas(a, p);
      RestHas(b, p);
      ListUnique(h, t, a[1..], b[1..]);
      assert a == [a[0]] + a[1..] && b == [b[0]] + b[1..];
    }
  }

  lemma {:induction false} ListedOnce(es: seq<Entry>, paths: set<Path>)
    requires InOrder(es) && forall p :: Has(es, p) <==> p in paths
    ensures |es| == |paths|
  {
    if es == [] {
      assert forall p :: p !in paths;
      assert paths == {};
    } else {
      assert Has(es, es[0].path) by { assert es[0].path == es[0].path; }
      forall p ensures Has(es[1..], p) <==> p in paths - {es[0].path} { RestHas(es, p); }
      RestHas(es, es[0].path);
      ListedOnce(es[1..], paths - {es[0].path});
    }
  }

  // ----- replaying an inventory -----

  /** One entry put into the stage: nothing may be there yet, its parent must be, and a file must still match. */
  function Place(h: Hash, src: Tree, e: Entry, stage: Tree): Option<Tree> {
    if e.path in stage || !ParentIsDir(stage, e.path) then None
    else if e.Directory? then Some(stage[e.path := Dir])
    else if Matches(h, src, e) then Some(stage[e.path := src[e.path]])
    else None
  }

  function Replay(h: Hash, src: Tree, es: seq<Entry>): Option<Tree> {
    if es == [] then Some(map[])
    else match Replay(h, src, es[..|es| - 1])
      case None => None
      case Some(stage) => Place(h, src, es[|es| - 1], stage)
  }

  /** The part of a tree that a list names. */
  ghost function Part(t: Tree, es: seq<Entry>): Tree {
    map p | p in t && Has(es, p) :: t[p]
  }

  lemma HasPrefix(es: seq<Entry>, k: nat, i: nat)
    requires InOrder(es) && k <= |es| && i < |es|
    ensures Has(es[..k], es[i].path) <==> i < k
  {
    if i < k { assert es[..k][i] == es[i]; }
    if Has(es[..k], es[i].path) {
      var j :| 0 <= j < k && es[..k][j].path == es[i].path;
      if j < i { PathLessIrreflexive(es[j].path, es[i].path); }
      if i < j { PathLessIrreflexive(es[i].path, es[j].path); }
    }
  }

  /** The parent of an entry is listed before it. */
  lemma ParentComesFirst(h: Hash, t: Tree, es: seq<Entry>, k: nat)
    requires IsTree(t) && IsInventory(h, t, false, es) && k < |es|
    ensures ParentIsDir(Part(t, es[..k]), es[k].path)
  {
    var p := es[k].path;
    assert Has(es, p);
    assert Placed(t, p);
    if |p| > 1 {
      var up := p[..|p| - 1];
      assert Has(es, up);
      var i :| 0 <= i < |es| && es[i].path == up;
      PathLessBelow(up, p);
      PathLessIrreflexive(up, p);
      assert i < k;
      HasPrefix(es, k, i);
    }
  }

  lemma PlaceGrows(h: Hash, t: Tree, es: seq<Entry>, k: nat)
    requires IsTree(t) && IsInventory(h, t, false, es) && k < |es|
    ensures Place(h, t, es[k], Part(t, es[..k])) == Some(Part(t, es[..k + 1]))
  {
    var p := es[k].path;
    ParentComesFirst(h, t, es, k);
    HasPrefix(es, k, k);
    assert Matches(h, t, es[k]);
    assert es[..k + 1] == es[..k] + [es[k]];
    forall q ensures Has(es[..k + 1], q) <==> Has(es[..k], q) || q == p {
      HasConcat(es[..k], [es[k]], q);
      assert Has([es[k]], q) <==> q == p by { assert [es[k]][0].path == p; }
    }
    assert Part(t, es[..k])[p := t[p]] == Part(t, es[..k + 1]);
  }

  lemma ReplayOneMore(h: Hash, src: Tree, es: seq<Entry>, k: nat)
    requires k < |es| && Replay(h, src, es[..k]).Some?
    ensures Replay(h, src, es[..k + 1]) == Place(h, src, es[k], Replay(h, src, es[..k]).value)
  {
    assert es[..k + 1][..k] == es[..k] && es[..k + 1][k] == es[k];
  }

  lemma {:induction false} ReplayPrefix(h: Hash, t: Tree, es: seq<Entry>, k: nat)
    requires IsTree(t) && IsInventory(h, t, false, es) && k <= |es|
    ensures Replay(h, t, es[..k]) == Some(Part(t, es[..k]))
  {
    if k == 0 {
      assert Part(t, es[..0]) == map[];
    } else {
      ReplayPrefix(h, t, es, k - 1);
      PlaceGrows(h, t, es, k - 1);
      ReplayOneMore(h, t, es, k - 1);
    }
  }

  /** Replaying an inventory in order always finds each parent, and rebuilds the very tree. */
  lemma ReplayRebuilds(h: Hash, t: Tree)
    requires IsTree(t)
    ensures var r := Inventory(h, t, false); r.Some? ==> Replay(h, t, r.value) == Some(t)
  {
    if Inventory(h, t, false).Some? {
      var es := Inventory(h, t, false).value;
      InventoryLists(h, t, false);
      ReplayPrefix(h, t, es, |es|);
      assert es[..|es|] == es;
      assert forall p :: Has(es, p) <==> p in t;
      assert Part(t, es) == t;
    }
  }

  // ----- the walk as it runs -----

  lemma {:induction false} ListingSize(s: seq<string>, names: set<string>)
    requires IsListing(s, names)
    ensures |s| == |names|
  {
    if s == [] {
      assert forall n :: n !in names;
      assert names == {};
    } else {
      assert s[0] in s;
      RestListing(s, names);
      ListingSize(s[1..], names - {s[0]});
    }
  }

  lemma NoDupPush(s: seq<string>, n: string)
    requires NoDup(s) && n !in s
    ensures NoDup(s + [n]) && forall m :: m in s + [n] <==> m in s || m == n
  {
  }

  class Budget {
    var bytes: nat
    var entries: nat

    constructor ()
      ensures bytes == 0 && entries == 0
    {
      bytes, entries := 0, 0;
    }

    ghost function State(output: seq<Entry>): Progress
      reads this
    {
      Progress(output, bytes, entries)
    }

    /** The totals are updated before they are compared, so a refused budget is spent. */
    method ChargeFor(n: nat, ghost output: seq<Entry>) returns (ok: bool)
      modifies this
      ensures bytes == old(bytes) + n && entries == old(entries) + 1
      ensures Charge(old(State(output)), n) == if ok then Some(State(output)) else None
    {
      bytes := bytes + n;
      entries := entries + 1;
      ok := bytes <= MAX_BYTES && entries <= MAX_ENTRIES;
    }
  }

  /** The directory is read in any order, each name charged, and the names are then sorted. */
  method ReadNames(t: Tree, prefix: Path, budget: Budget, ghost output: seq<Entry>) returns (r: Option<seq<string>>)
    modifies budget
    ensures var charged := ChargeNames(old(budget.State(output)), |Listed(t, prefix)|);
            if r.None? then charged.None? else r.value == Listed(t, prefix) && charged == Some(budget.State(output))
  {
    var left := NamesIn(t, prefix);
    var arrived: seq<string> := [];
    ListingSize(Listed(t, prefix), left);
    ghost var all := ChargeNames(budget.State(output), |left|);
    while left != {}
      invariant left <= NamesIn(t, prefix) && NoDup(arrived)
      invariant forall n :: n in arrived <==> n in NamesIn(t, prefix) - left
      invariant ChargeNames(budget.State(output), |left|) == all
      decreases |left|
    {
      var ok := budget.ChargeFor(0, output);
      if !ok { return None; }
      var n :| n in left;
      assert n !in arrived;
      NoDupPush(arrived, n);
      arrived := arrived + [n];
      left := left - {n};
    }
    SortingLists(arrived, NamesIn(t, prefix));
    ListingUnique(SortBy(LexLE, arrived), Listed(t, prefix), NamesIn(t, prefix));
    return Some(SortBy(LexLE, arrived));
  }

  /** A file is read in pieces of whatever sizes the system returns, each charged as it arrives. */
  method ReadFile(h: Hash, path: Path, bytes: Bytes, parts: seq<nat>, budget: Budget, ghost output: seq<Entry>)
    returns (r: Option<Entry>)
    requires AreReads(parts, |bytes|)
    modifies budget
    ensures var charged := ChargeReads(old(budget.State(output)), parts);
            if r.None? then |bytes| > MAX_FILE || charged.None?
            else |bytes| <= MAX_FILE && r.value == FileEntry(path, |bytes|, h(bytes))
                 && charged == Some(budget.State(output))
  {
    if |bytes| > MAX_FILE { return None; }
    var size, i := 0, 0;
    ghost var all := ChargeReads(budget.State(output), parts);
    assert parts[0..] == parts;
    while i < |parts|
      invariant i <= |parts| && size <= |bytes| && AreReads(parts[i..], |bytes| - size)
      invariant ChargeReads(budget.State(output), parts[i..]) == all
    {
      assert parts[i..][0] == parts[i] && parts[i..][1..] == parts[i + 1..];
      size := size + parts[i];
      var ok := budget.ChargeFor(parts[i], output);
      if !ok { return None; }
      i := i + 1;
    }
    return Some(FileEntry(path, size, h(bytes)));
  }

  method WalkName(h: Hash, cut: Cut, t: Tree, prefix: Path, name: string, source: bool, budget: Budget,
                  output: seq<Entry>)
    returns (r: Option<seq<Entry>>)
    requires IsCut(cut) && IsTree(t) && |prefix| <= MAX_DEPTH && prefix + [name] in t
    modifies budget
    ensures var done := WalkEntry(h, cut, t, prefix, name, source, old(budget.State(output)));
            if r.None? then done.None? else done == Some(budget.State(r.value))
    decreases MAX_DEPTH - |prefix|, 0
  {
    var path := prefix + [name];
    if !ValidRelative(Join(path)) { return None; }
    ValidDepth(t, path);
    if source && Excluded(Join(path)) { return Some(output); }
    match t[path]
    case Other => return None;
    case Dir => r := Walk(h, cut, t, path, source, budget, output + [Directory(path)]);
    case File(bytes) =>
      var entry := ReadFile(h, path, bytes, cut(path, |bytes|), budget, output);
      return if entry.None? then None else Some(output + [entry.value]);
  }

  method Walk(h: Hash, cut: Cut, t: Tree, prefix: Path, source: bool, budget: Budget, output: seq<Entry>)
    returns (r: Option<seq<Entry>>)
    requires IsCut(cut) && IsTree(t) && |prefix| <= MAX_DEPTH
    modifies budget
    ensures var done := WalkDir(h, cut, t, prefix, source, old(budget.State(output)));
            if r.None? then done.None? else done == Some(budget.State(r.value))
    decreases MAX_DEPTH - |prefix|, 1
  {
    var read := ReadNames(t, prefix, budget, output);
    if read.None? { return None; }
    var names, out := read.value, output;
    ghost var all := WalkNames(h, cut, t, prefix, names, source, budget.State(out));
    assert names[0..] == names;
    for i := 0 to |names|
      invariant WalkNames(h, cut, t, prefix, names[i..], source, budget.State(out)) == all
    {
      assert names[i..][0] == names[i] && names[i..][1..] == names[i + 1..];
      var next := WalkName(h, cut, t, prefix, names[i], source, budget, out);
      if next.None? { return None; }
      out := next.value;
    }
    return Some(out);
  }

  method TakeInventory(h: Hash, cut: Cut, t: Tree, source: bool) returns (r: Option<seq<Entry>>)
    requires IsCut(cut) && IsTree(t)
    ensures r == InventoryBy(h, cut, t, source)
  {
    var budget := new Budget();
    r := Walk(h, cut, t, [], source, budget, []);
  }
}
