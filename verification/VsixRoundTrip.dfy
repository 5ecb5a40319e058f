/** What is packed by the writer is accepted by the verifier, and read back as it was packed. */
module VsixRoundTrip {
  import opened Outcome
  import opened Ordering
  import opened Crc32
  import opened VsixArchive
  import opened VsixWriter

  function StartOf(items: seq<Item>): nat {
    |Joined(LocalParts(items))|
  }

  function EndAt(items: seq<Item>): nat {
    StartOf(items) + |Joined(CentralParts(items))|
  }

  function FoundAt(locals: seq<Bytes>, centrals: seq<Bytes>, it: Item, i: nat): Entry
    requires i < |locals| == |centrals|
  {
    Found(it, |Joined(locals[..i])|, |Joined(locals)| + |Joined(centrals[..i])|)
  }

  function FoundAll(items: seq<Item>): (es: seq<Entry>)
    ensures |es| == |items|
    ensures forall i :: 0 <= i < |items| ==> es[i] == FoundAt(LocalParts(items), CentralParts(items), items[i], i)
  {
    seq(|items|, i requires 0 <= i < |items| => FoundAt(LocalParts(items), CentralParts(items), items[i], i))
  }

  // ----- every item is found -----

  /** Both parts of the item stand where the entry says, before `start` and before `end`. */
  ghost predicate StandsAs(b: Bytes, it: Item, e: Entry, start: nat, end: nat) {
    && Stands(b, e.offset, Local(it)) && e.offset + |Local(it)| <= start
    && Stands(b, e.central, Central(it, e.offset)) && e.central + |Central(it, e.offset)| <= end
  }

  lemma ItemStands(x: Bytes, y: Bytes, z: Bytes, it: Item, e: Entry, k: nat)
    requires Stands(x, e.offset, Local(it)) && Stands(y, k, Central(it, e.offset)) && e.central == |x| + k
    ensures StandsAs(x + y + z, it, e, |x|, |x| + |y|)
  {
    StandsInPrefix(x, y, e.offset, Local(it));
    StandsInPrefix(x + y, z, e.offset, Local(it));
    StandsInMiddle(x, y, z, k, Central(it, e.offset));
  }

  lemma EveryItemStands(items: seq<Item>, x: Bytes, y: Bytes, z: Bytes, es: seq<Entry>)
    requires x == Joined(LocalParts(items)) && y == Joined(CentralParts(items)) && es == FoundAll(items)
    ensures forall i :: 0 <= i < |items| ==> StandsAs(x + y + z, items[i], es[i], |x|, |x| + |y|)
  {
    forall i | 0 <= i < |items| ensures StandsAs(x + y + z, items[i], es[i], |x|, |x| + |y|) {
      PartStands(LocalParts(items), i);
      PartStands(CentralParts(items), i);
      ItemStands(x, y, z, items[i], es[i], |Joined(CentralParts(items)[..i])|);
    }
  }

  ghost predicate AllPackable(p: Platform, items: seq<Item>) {
    forall i :: 0 <= i < |items| ==> items[i] in PackableBy(p)
  }

  /** The archive is not larger than the verifier allows. */
  predicate SmallArchive(items: seq<Item>) {
    0 < |items| <= 20000 && EndAt(items) + END_SIZE <= 0x1000_0000
  }

  /** The entry can be read, and lies in its place. */
  ghost predicate GoodIn(p: Platform, b: Bytes, start: nat, end: nat, e: Entry) {
    e in Good(p, b, start, end) && Shape(e, start, end)
  }

  lemma EveryItemIsFound(p: Platform, items: seq<Item>, b: Bytes, start: nat, end: nat, es: seq<Entry>)
    requires AllPackable(p, items) && |es| == |items| && start <= end <= |b| && start < 0x1_0000_0000
    requires forall i :: 0 <= i < |items| ==> es[i] == Found(items[i], es[i].offset, es[i].central)
    requires forall i :: 0 <= i < |items| ==> StandsAs(b, items[i], es[i], start, end)
    ensures forall i :: 0 <= i < |es| ==> GoodIn(p, b, start, end, es[i])
  {
    forall i | 0 <= i < |es| ensures GoodIn(p, b, start, end, es[i]) {
      assert StandsAs(b, items[i], es[i], start, end);
      ItemIsFound(p, b, start, end, items[i], es[i]);
    }
  }

  // ----- the end record -----

  lemma EndReads(b: Bytes, at: nat, count: nat, size: nat, start: nat, fs: seq<Field>)
    requires count < 0x1_0000 && size < 0x1_0000_0000 && start < 0x1_0000_0000 && fs == EndFields(count, size, start)
    requires Stands(b, at, Layout(fs)) && |b| == at + 22
    ensures U32(b, at) == 0x06054b50 && U16(b, at + 4) == U16(b, at + 6) == 0
            && U16(b, at + 8) == U16(b, at + 10) == count
    ensures U32(b, at + 12) == size && U32(b, at + 16) == start && U16(b, at + 20) == 0
  {
    EndIndexed(count, size, start, fs);
    EndOffsets(fs);
    FieldStandsAt(b, at, fs, 0, 0, fs[0].bytes);
    BytesRead(b, at, fs[0].bytes);
    FieldIsShort(b, at, fs, 1, 4, 0);
    FieldIsShort(b, at, fs, 2, 6, 0);
    FieldIsShort(b, at, fs, 3, 8, count);
    FieldIsShort(b, at, fs, 4, 10, count);
    FieldIsLong(b, at, fs, 5, 12, size);
    FieldIsLong(b, at, fs, 6, 16, start);
    FieldIsShort(b, at, fs, 7, 20, 0);
  }

  lemma EndIsLast(b: Bytes, start: nat, end: nat, count: nat)
    requires |b| == end + 22 && U32(b, end) == 0x06054b50 && U16(b, end + 20) == 0
    requires U16(b, end + 4) == U16(b, end + 6) == 0 && U16(b, end + 8) == U16(b, end + 10) == count
    requires U32(b, end + 12) == end - start && U32(b, end + 16) == start && 0 < count <= MAX_ENTRIES
    ensures IsEndRecord(b, start, end, count)
  {
  }

  lemma EndIsFound(x: Bytes, y: Bytes, count: nat)
    requires 0 < count <= MAX_ENTRIES && |x| + |y| < 0x1_0000_0000
    ensures IsEndRecord(x + y + EndOf(count, |y|, |x|), |x|, |x| + |y|, count)
  {
    var z, fs := EndOf(count, |y|, |x|), EndFields(count, |y|, |x|);
    assert Stands(z, 0, z);
    StandsInSuffix(x + y, z, 0, z);
    EndReads(x + y + z, |x| + |y|, count, |y|, |x|, fs);
    EndIsLast(x + y + z, |x|, |x| + |y|, count);
  }

  // ----- the directory -----

  /** The entries lie where these parts are put. */
  ghost predicate LieIn(locals: seq<Bytes>, centrals: seq<Bytes>, start: nat, es: seq<Entry>) {
    && |es| == |locals| == |centrals|
    && forall i :: 0 <= i < |es| ==> LiesAt(locals, centrals, start, es[i], i)
  }

  ghost predicate LiesAt(locals: seq<Bytes>, centrals: seq<Bytes>, start: nat, e: Entry, i: nat)
    requires i < |locals| == |centrals|
  {
    && e.central == start + |Joined(centrals[..i])| && e.centralEnd == e.central + |centrals[i]|
    && e.offset == |Joined(locals[..i])| && e.finish <= e.offset + |locals[i]|
  }

  lemma RecordsFollow(locals: seq<Bytes>, centrals: seq<Bytes>, start: nat, es: seq<Entry>, i: nat)
    requires LieIn(locals, centrals, start, es) && i < |es|
    ensures Follows(start, es, i) && es[i].centralEnd == start + |Joined(centrals[..i + 1])|
  {
    assert LiesAt(locals, centrals, start, es[i], i);
    JoinedGrows(centrals, i);
    if i > 0 {
      assert LiesAt(locals, centrals, start, es[i - 1], i - 1);
      JoinedGrows(centrals, i - 1);
    }
  }

  lemma RangesAreApart(locals: seq<Bytes>, centrals: seq<Bytes>, start: nat, es: seq<Entry>, i: nat, j: nat)
    requires LieIn(locals, centrals, start, es) && i < j < |es|
    ensures Disjoint(es[i], es[j])
  {
    assert LiesAt(locals, centrals, start, es[i], i) && LiesAt(locals, centrals, start, es[j], j);
    JoinedGrows(locals, i);
    JoinedGrowsTo(locals, i + 1, j);
  }

  lemma RecordsTile(locals: seq<Bytes>, centrals: seq<Bytes>, start: nat, es: seq<Entry>)
    requires LieIn(locals, centrals, start, es) && es != []
    ensures forall i :: 0 <= i < |es| ==> Follows(start, es, i)
    ensures start + |Joined(centrals)| == CursorBefore(start, es, |es|)
    ensures forall i, j :: 0 <= i < j < |es| ==> Disjoint(es[i], es[j])
  {
    forall i | 0 <= i < |es| ensures Follows(start, es, i) { RecordsFollow(locals, centrals, start, es, i); }
    RecordsFollow(locals, centrals, start, es, |es| - 1);
    assert centrals[..|es|] == centrals;
    forall i, j | 0 <= i < j < |es| ensures Disjoint(es[i], es[j]) {
      RangesAreApart(locals, centrals, start, es, i, j);
    }
  }

  lemma ItemSizes(it: Item, offset: nat)
    ensures |Local(it)| >= 30 + |it.nameBytes| + |RawOf(it)| && |Central(it, offset)| == 46 + |it.nameBytes|
  {
    LocalSize(LocalHeaderOf(it), it.nameBytes, RawOf(it), TailOf(it));
    CentralSize(HeaderOf(it), offset, it.nameBytes);
  }

  lemma EntriesLie(items: seq<Item>)
    ensures LieIn(LocalParts(items), CentralParts(items), StartOf(items), FoundAll(items))
  {
    var locals, centrals, start, es := LocalParts(items), CentralParts(items), StartOf(items), FoundAll(items);
    forall i | 0 <= i < |es| ensures LiesAt(locals, centrals, start, es[i], i) {
      ItemSizes(items[i], OffsetOf(items, i));
    }
  }

  function DataTotal(items: seq<Item>): nat {
    if items == [] then 0 else DataTotal(items[..|items| - 1]) + |items[|items| - 1].data|
  }

  lemma {:induction false} TotalsAgree(items: seq<Item>, es: seq<Entry>)
    requires |es| == |items| && forall i :: 0 <= i < |items| ==> es[i].data == items[i].data
    ensures TotalSize(es) == DataTotal(items)
  {
    if items != [] { TotalsAgree(items[..|items| - 1], es[..|es| - 1]); }
  }

  /** No two names agree up to case. */
  ghost predicate NamesDiffer(p: Platform, items: seq<Item>) {
    forall i, j :: 0 <= i < j < |items| ==> p.fold(NameOf(items[i])) != p.fold(NameOf(items[j]))
  }

  lemma DirectoryIsLaid(p: Platform, items: seq<Item>, es: seq<Entry>, b: Bytes, start: nat, end: nat)
    requires NamesDiffer(p, items) && DataTotal(items) <= MAX_TOTAL && es == FoundAll(items) && es != []
    requires start == StartOf(items) && end == EndAt(items)
             && forall i :: 0 <= i < |es| ==> GoodIn(p, b, start, end, es[i])
    ensures Laid(p.fold, start, end, end, es)
  {
    EntriesLie(items);
    RecordsTile(LocalParts(items), CentralParts(items), start, es);
    TotalsAgree(items, es);
    forall i | 0 <= i < |es| ensures Shape(es[i], start, end) { assert GoodIn(p, b, start, end, es[i]); }
  }

  // ----- the files of the extension -----

  /** A file of the extension, its package description included. */
  predicate InExtension(it: Item) {
    !it.directory && |it.path| > 1 && it.path[0] == "extension"
  }

  predicate IsDescription(it: Item) {
    !it.directory && it.path == ["extension", "package.json"]
  }

  /** A text starts with a component and a slash exactly when its path starts with that component and goes on. */
  lemma StartsWithPart(path: seq<string>, text: string, e: string, head: string)
    requires GoodPath(path) && text == Text(path) && '/' !in e && head == e + "/"
    ensures head <= text <==> |path| > 1 && path[0] == e
    ensures head <= text ==> text[|head|..] == Text(path[1..])
  {
    if head <= text {
      var rest := text[|head|..];
      assert text == e + ['/'] + rest;
      SplitAtFirst('/', e, rest);
      TextSplits(path);
      assert path[0] == e && |path| > 1;
      assert text == head + Text(path[1..]);
    }
    if |path| > 1 && path[0] == e { assert text == head + Text(path[1..]); }
  }

  lemma NoSlash(e: string)
    requires e == "extension" || e == "package.json"
    ensures '/' !in e && (e == "extension" ==> e + "/" == PREFIX)
  {
  }

  lemma HasPrefix(text: string, head: string)
    requires head == PREFIX
    ensures head <= text <==> |PREFIX| <= |text| && text[..|PREFIX|] == PREFIX
  {
  }

  /** The verifier sees a file of the extension exactly where one was packed. */
  lemma InsideIs(it: Item, e: string)
    requires GoodPath(it.path) && e == "extension"
    ensures Inside(NameOf(it)) == if InExtension(it) then Some(Text(it.path[1..])) else None
  {
    var text := Text(it.path);
    TextIsSafe(it.path);
    if it.directory {
      assert NameOf(it)[|NameOf(it)| - 1] == '/';
    } else {
      assert NameOf(it) == text;
      NoSlash(e);
      StartsWithPart(it.path, text, e, e + "/");
      HasPrefix(text, e + "/");
    }
  }

  /** `m` holds the digest of every file of the extension but its description, and nothing else. */
  ghost predicate IsManifest(p: Platform, items: seq<Item>, m: map<string, string>) {
    && (forall i :: 0 <= i < |items| && InExtension(items[i]) && !IsDescription(items[i]) ==>
          Text(items[i].path[1..]) in m && m[Text(items[i].path[1..])] == p.sha256(items[i].data))
    && forall k :: k in m ==>
         exists i :: 0 <= i < |items| && InExtension(items[i]) && !IsDescription(items[i])
             && k == Text(items[i].path[1..])
  }

  /** Only one thing can be asked of a manifest. */
  lemma ManifestIsUnique(p: Platform, items: seq<Item>, m: map<string, string>, n: map<string, string>)
    requires IsManifest(p, items, m) && IsManifest(p, items, n)
    ensures m == n
  {
    forall k | k in m ensures k in n && n[k] == m[k] {
      var i :| 0 <= i < |items| && InExtension(items[i]) && !IsDescription(items[i]) && k == Text(items[i].path[1..]);
    }
    forall k | k in n ensures k in m {
      var i :| 0 <= i < |items| && InExtension(items[i]) && !IsDescription(items[i]) && k == Text(items[i].path[1..]);
    }
  }

  lemma TextOfOne(path: seq<string>, d: string)
    requires GoodPath(path) && '/' !in d
    ensures Text(path) == d <==> path == [d]
  {
    if Text(path) == d {
      TextSplits(path);
      SplitName('/', d);
    }
  }

  /** The name inside the extension is `package.json` exactly for the description. */
  lemma DescriptionIs(it: Item, d: string)
    requires GoodPath(it.path) && InExtension(it) && d == "package.json"
    ensures Text(it.path[1..]) == d <==> IsDescription(it)
  {
    NoSlash(d);
    TextOfOne(it.path[1..], d);
    assert it.path == [it.path[0]] + it.path[1..];
  }

  // ----- what the verifier makes of them -----

  lemma {:induction false} FilesHold(p: Platform, es: seq<Entry>, k: string)
    ensures k in FilesOf(p, es) <==> exists i :: 0 <= i < |es| && Inside(es[i].name) == Some(k) && k != "package.json"
  {
    if es != [] {
      var n := |es| - 1;
      FilesHold(p, es[..n], k);
      if k in FilesOf(p, es[..n]) {
        var i :| 0 <= i < n && Inside(es[..n][i].name) == Some(k) && k != "package.json";
        assert es[i] == es[..n][i];
      }
      if i :| 0 <= i < n && Inside(es[i].name) == Some(k) && k != "package.json" { assert es[..n][i] == es[i]; }
    }
  }

  lemma {:induction false} FilesAre(p: Platform, es: seq<Entry>, i: nat, k: string)
    requires i < |es| && Inside(es[i].name) == Some(k) && k != "package.json"
    requires forall j :: 0 <= j < |es| && j != i ==> Inside(es[j].name) != Some(k)
    ensures k in FilesOf(p, es) && FilesOf(p, es)[k] == p.sha256(es[i].data)
  {
    var n := |es| - 1;
    if i < n { FilesAre(p, es[..n], i, k); }
  }

  lemma InsideTellsName(a: string, b: string)
    requires Inside(a).Some? && Inside(a) == Inside(b)
    ensures a == b
  {
    assert a == PREFIX + a[|PREFIX|..] && b == PREFIX + b[|PREFIX|..];
  }

  /** The entries have the names and the data of the items. */
  ghost predicate SameContents(items: seq<Item>, es: seq<Entry>) {
    |es| == |items| && forall i :: 0 <= i < |es| ==> es[i].name == NameOf(items[i]) && es[i].data == items[i].data
  }

  ghost predicate GoodPaths(items: seq<Item>) {
    forall i :: 0 <= i < |items| ==> GoodPath(items[i].path)
  }

  lemma OnlyOneInside(p: Platform, items: seq<Item>, es: seq<Entry>, i: nat, j: nat)
    requires NamesDiffer(p, items) && SameContents(items, es) && i < |es| && j < |es| && i != j
             && Inside(es[i].name).Some?
    ensures Inside(es[j].name) != Inside(es[i].name)
  {
    if Inside(es[j].name) == Inside(es[i].name) { InsideTellsName(es[i].name, es[j].name); }
  }

  lemma FileIsListed(p: Platform, items: seq<Item>, es: seq<Entry>, i: nat, k: string)
    requires NamesDiffer(p, items) && SameContents(items, es) && GoodPaths(items)
    requires i < |items| && InExtension(items[i]) && !IsDescription(items[i]) && k == Text(items[i].path[1..])
    ensures k in FilesOf(p, es) && FilesOf(p, es)[k] == p.sha256(items[i].data)
  {
    InsideIs(items[i], "extension");
    DescriptionIs(items[i], "package.json");
    forall j | 0 <= j < |es| && j != i ensures Inside(es[j].name) != Some(k) { OnlyOneInside(p, items, es, i, j); }
    FilesAre(p, es, i, k);
  }

  lemma ListedIsFile(p: Platform, items: seq<Item>, es: seq<Entry>, k: string) returns (i: nat)
    requires SameContents(items, es) && GoodPaths(items) && k in FilesOf(p, es)
    ensures i < |items| && InExtension(items[i]) && !IsDescription(items[i]) && k == Text(items[i].path[1..])
  {
    FilesHold(p, es, k);
    i :| 0 <= i < |es| && Inside(es[i].name) == Some(k) && k != "package.json";
    InsideIs(items[i], "extension");
    DescriptionIs(items[i], "package.json");
  }

  /** The digests the verifier computes are those of the packed files. */
  lemma FilesAreManifest(p: Platform, items: seq<Item>, es: seq<Entry>)
    requires NamesDiffer(p, items) && SameContents(items, es) && GoodPaths(items)
    ensures IsManifest(p, items, FilesOf(p, es))
  {
    var m := FilesOf(p, es);
    forall i | 0 <= i < |items| && InExtension(items[i]) && !IsDescription(items[i])
      ensures Text(items[i].path[1..]) in m && m[Text(items[i].path[1..])] == p.sha256(items[i].data)
    {
      FileIsListed(p, items, es, i, Text(items[i].path[1..]));
    }
    forall k | k in m
      ensures exists i ::
        0 <= i < |items| && InExtension(items[i]) && !IsDescription(items[i]) && k == Text(items[i].path[1..])
    {
      var i := ListedIsFile(p, items, es, k);
    }
  }

  lemma {:induction false} NoVersion(p: Platform, es: seq<Entry>)
    requires forall j :: 0 <= j < |es| ==> Inside(es[j].name) != Some("package.json")
    ensures VersionOf(p, es) == None
  {
    if es != [] { NoVersion(p, es[..|es| - 1]); }
  }

  lemma {:induction false} VersionIs(p: Platform, es: seq<Entry>, i: nat)
    requires i < |es| && Inside(es[i].name) == Some("package.json")
    requires forall j :: 0 <= j < |es| && j != i ==> Inside(es[j].name) != Some("package.json")
    ensures VersionOf(p, es) == OwnVersion(p, es[i].data)
  {
    if i < |es| - 1 { VersionIs(p, es[..|es| - 1], i); }
  }

  lemma DescriptionInside(it: Item)
    requires GoodPath(it.path)
    ensures Inside(NameOf(it)) == Some("package.json") <==> IsDescription(it)
  {
    InsideIs(it, "extension");
    if InExtension(it) { DescriptionIs(it, "package.json"); }
  }

  predicate IsOwn(p: Platform, it: Item, version: string) {
    p.packageOf(it.data) == Some(Package("smallcloud", "codify", version))
  }

  /** Every package description is the extension's own. */
  ghost predicate OwnItems(p: Platform, items: seq<Item>) {
    forall i :: 0 <= i < |items| && IsDescription(items[i]) ==> exists version :: IsOwn(p, items[i], version)
  }

  /** The extension is packed with this version. */
  ghost predicate HasVersion(p: Platform, items: seq<Item>, version: string) {
    exists i :: 0 <= i < |items| && IsDescription(items[i]) && IsOwn(p, items[i], version)
  }

  lemma VersionIsFound(p: Platform, items: seq<Item>, es: seq<Entry>, version: string)
    requires NamesDiffer(p, items) && SameContents(items, es) && GoodPaths(items)
    ensures VersionOf(p, es) == Some(version) <==> HasVersion(p, items, version)
  {
    forall i | 0 <= i < |items| ensures Inside(es[i].name) == Some("package.json") <==> IsDescription(items[i]) {
      DescriptionInside(items[i]);
    }
    if i :| 0 <= i < |items| && IsDescription(items[i]) {
      forall j | 0 <= j < |es| && j != i ensures Inside(es[j].name) != Some("package.json") {
        OnlyOneInside(p, items, es, i, j);
      }
      VersionIs(p, es, i);
      assert OwnVersion(p, items[i].data) == Some(version) <==> IsOwn(p, items[i], version);
    } else {
      NoVersion(p, es);
    }
  }

  // ----- acceptance -----

  /** What the verifier is there to accept. */
  ghost predicate Genuine(p: Platform, items: seq<Item>) {
    && SmallArchive(items) && AllPackable(p, items) && NamesDiffer(p, items) && OwnItems(p, items)
    && DataTotal(items) <= 0x2000_0000
  }

  lemma EndRecordUnique(b: Bytes, s1: nat, e1: nat, c1: nat, s2: nat, e2: nat, c2: nat)
    requires IsEndRecord(b, s1, e1, c1) && IsEndRecord(b, s2, e2, c2)
    ensures s1 == s2 && e1 == e2 && c1 == c2
  {
  }

  lemma GenuineContents(p: Platform, items: seq<Item>, es: seq<Entry>)
    requires AllPackable(p, items) && es == FoundAll(items)
    ensures SameContents(items, es) && GoodPaths(items)
    ensures forall i :: 0 <= i < |items| ==> es[i] == Found(items[i], es[i].offset, es[i].central)
  {
  }

  lemma OwnPackages(p: Platform, items: seq<Item>, es: seq<Entry>)
    requires OwnItems(p, items) && SameContents(items, es) && GoodPaths(items)
    ensures forall i :: 0 <= i < |es| ==> OwnPackage(p, es[i])
  {
    forall i | 0 <= i < |es| ensures OwnPackage(p, es[i]) {
      DescriptionInside(items[i]);
      if IsDescription(items[i]) {
        var version :| IsOwn(p, items[i], version);
      }
    }
  }

  lemma ArchiveSize(items: seq<Item>, x: Bytes, y: Bytes)
    requires x == Joined(LocalParts(items)) && y == Joined(CentralParts(items))
    ensures Archive(items) == x + y + EndOf(|items|, |y|, |x|) && |Archive(items)| == |x| + |y| + 22
    ensures |x| == StartOf(items) && |x| + |y| == EndAt(items)
  {
  }

  lemma AllAreFound(p: Platform, items: seq<Item>, es: seq<Entry>, b: Bytes, start: nat, end: nat)
    requires SmallArchive(items) && AllPackable(p, items) && es == FoundAll(items)
    requires b == Archive(items) && start == StartOf(items) && end == EndAt(items)
    ensures forall i :: 0 <= i < |es| ==> GoodIn(p, b, start, end, es[i])
    ensures IsEndRecord(b, start, end, |items|)
  {
    var x, y := Joined(LocalParts(items)), Joined(CentralParts(items));
    var z := EndOf(|items|, |y|, |x|);
    ArchiveSize(items, x, y);
    EveryItemStands(items, x, y, z, es);
    GenuineContents(p, items, es);
    EveryItemIsFound(p, items, b, start, end, es);
    EndIsFound(x, y, |items|);
  }

  /** The directory of a written archive is made of exactly the packed items. */
  lemma DirectoryIsFound(p: Platform, items: seq<Item>, es: seq<Entry>, b: Bytes, start: nat, end: nat)
    requires Genuine(p, items) && es == FoundAll(items)
    requires b == Archive(items) && start == StartOf(items) && end == EndAt(items)
    ensures IsEndRecord(b, start, end, |items|) && IsDirectoryOf(p, Good(p, b, start, end), start, end, |items|, es)
  {
    AllAreFound(p, items, es, b, start, end);
    DirectoryIsLaid(p, items, es, b, start, end);
    GenuineContents(p, items, es);
    OwnPackages(p, items, es);
    forall i | 0 <= i < |es| ensures es[i] in Good(p, b, start, end) { assert GoodIn(p, b, start, end, es[i]); }
  }

  /** Whatever else is accepted of a written archive is that directory. */
  lemma OnlyDirectory(p: Platform, items: seq<Item>, b: Bytes, request: Request, s: nat, e: nat, xs: seq<Entry>)
    requires Genuine(p, items) && b == Archive(items) && Accepted(p, b, request, s, e, xs)
    ensures xs == FoundAll(items)
  {
    var es, start, end := FoundAll(items), StartOf(items), EndAt(items);
    DirectoryIsFound(p, items, es, b, start, end);
    EndRecordUnique(b, start, end, |items|, s, e, |xs|);
    GoodIsUnique(p, b, start, end);
    DirectoryUnique(p, Good(p, b, start, end), start, end, |items|, es);
  }

  lemma WrittenIsAccepted(p: Platform, items: seq<Item>, b: Bytes, request: Request, manifest: map<string, string>)
    requires Genuine(p, items) && b == Archive(items) && IsManifest(p, items, manifest)
    requires p.sha256(b) == request.artifactDigest && p.manifestOf(manifest) == Some(request.manifestDigest)
    requires HasVersion(p, items, request.packageVersion)
    ensures Accepted(p, b, request, StartOf(items), EndAt(items), FoundAll(items))
  {
    var es := FoundAll(items);
    DirectoryIsFound(p, items, es, b, StartOf(items), EndAt(items));
    GenuineContents(p, items, es);
    FilesAreManifest(p, items, es);
    ManifestIsUnique(p, items, manifest, FilesOf(p, es));
    VersionIsFound(p, items, es, request.packageVersion);
    ArchiveSize(items, Joined(LocalParts(items)), Joined(CentralParts(items)));
  }

  /**
   Every genuine archive, written field by field, is accepted exactly when the request names its
   digest, the manifest of its files and its version.
   */
  method PackAndVerify(p: Platform, items: seq<Item>, request: Request, manifest: map<string, string>)
    returns (ok: bool)
    requires Genuine(p, items) && IsManifest(p, items, manifest)
    ensures ok <==> && p.sha256(Archive(items)) == request.artifactDigest
                    && p.manifestOf(manifest) == Some(request.manifestDigest)
                    && HasVersion(p, items, request.packageVersion)
  {
    var b := Archive(items);
    ghost var s, e, xs;
    ok, s, e, xs := Verify(p, b, request);
    if ok {
      OnlyDirectory(p, items, b, request, s, e, xs);
      GenuineContents(p, items, xs);
      FilesAreManifest(p, items, xs);
      ManifestIsUnique(p, items, manifest, FilesOf(p, xs));
      VersionIsFound(p, items, xs, request.packageVersion);
    } else if p.sha256(b) == request.artifactDigest && p.manifestOf(manifest) == Some(request.manifestDigest) {
      if HasVersion(p, items, request.packageVersion) { WrittenIsAccepted(p, items, b, request, manifest); }
    }
  }
}
