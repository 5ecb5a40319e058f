/**
 The in-memory verifier of a packaged extension: an index-arithmetic reader of the end record
 (section 4.3.16 of PKWARE APPNOTE.TXT), the central directory (4.3.12) and the local headers
 (4.3.7). Hashing, text decoding, case folding, decompression and JSON are parameters.
 */
module VsixArchive {
  import opened Outcome
  import opened Ordering
  import opened Crc32

  type Bytes = seq<byte>

  /** What the verifier takes from the platform. `decode` fails on bytes that are not valid UTF-8. */
  datatype Platform = Platform(
    sha256: Bytes -> string,
    decode: Bytes -> Option<string>,
    fold: string -> string,
    inflate: (Bytes, nat) -> Option<Bytes>,
    packageOf: Bytes -> Option<Package>,
    manifestOf: map<string, string> -> Option<string>)

  datatype Package = Package(publisher: string, name: string, version: string)

  datatype Request = Request(artifactDigest: string, manifestDigest: string, packageVersion: string)

  /** One accepted entry: where its central record and its local range lie, and what it holds. */
  datatype Entry = Entry(central: nat, centralEnd: nat, offset: nat, finish: nat, name: string, data: Bytes)

  const MAX_ARCHIVE: nat := 256 * 1024 * 1024
  const MAX_TOTAL: nat := 512 * 1024 * 1024
  const MAX_FILE: nat := 128 * 1024 * 1024
  const MAX_ENTRIES: nat := 20000
  const END_SIZE: nat := 22
  const MAX_END: nat := 65557

  // ----- fixed-width reads: each demands its bounds -----

  function U16(b: Bytes, i: nat): (n: nat)
    requires i + 2 <= |b|
    ensures n < 0x10000
  {
    b[i] as nat + 0x100 * b[i + 1] as nat
  }

  function U32(b: Bytes, i: nat): (n: nat)
    requires i + 4 <= |b|
    ensures n < 0x1_0000_0000
  {
    U16(b, i) + 0x10000 * U16(b, i + 2)
  }

  /** `subarray` clamps its bounds. */
  function Sub(b: Bytes, from: nat, to: nat): Bytes {
    var lo := if from < |b| then from else |b|;
    var hi := if to < |b| then to else |b|;
    if lo <= hi then b[lo..hi] else []
  }

  /** `(flags & ~(0x800 | 8 | 2 | 4)) === 0` */
  predicate AllowedFlags(flags: nat) {
    flags % 2 == 0 && flags % 0x800 < 16 && flags < 0x1000
  }

  predicate HasDescriptor(flags: nat) {
    flags / 8 % 2 == 1
  }

  // ----- paths -----

  predicate SafeChar(c: char) {
    c != '\\' && c != ':' && c > '\U{001F}' && c != '\U{007F}'
  }

  predicate SafePath(p: string, byteLength: nat) {
    && p != "" && byteLength < 4096 && (forall i :: 0 <= i < |p| ==> SafeChar(p[i]))
    && forall i :: 0 <= i < |SplitOn('/', p)| ==>
       SplitOn('/', p)[i] != "" && SplitOn('/', p)[i] != "." && SplitOn('/', p)[i] != ".."
  }

  predicate IsDirectory(name: string) {
    name != "" && name[|name| - 1] == '/'
  }

  predicate SafeName(name: string, byteLength: nat) {
    if IsDirectory(name) then byteLength > 0 && SafePath(name[..|name| - 1], byteLength - 1)
    else SafePath(name, byteLength)
  }

  const PREFIX: string := "extension/"

  /** The name inside the extension, for a file that lies in it. */
  function Inside(name: string): Option<string> {
    if !IsDirectory(name) && |PREFIX| <= |name| && name[..|PREFIX|] == PREFIX then Some(name[|PREFIX|..]) else None
  }

  /** The digests the manifest is made of: every file of the extension but its package description. */
  function FilesOf(p: Platform, es: seq<Entry>): map<string, string> {
    if es == [] then map[]
    else
      var e := es[|es| - 1];
      var rest := FilesOf(p, es[..|es| - 1]);
      if Inside(e.name).Some? && Inside(e.name).value != "package.json"
      then rest[Inside(e.name).value := p.sha256(e.data)]
      else rest
  }

  /** The version in a package description, if it is the extension's own. */
  function OwnVersion(p: Platform, data: Bytes): Option<string> {
    var package := p.packageOf(data);
    if package.Some? && package.value.publisher == "smallcloud" && package.value.name == "codify"
    then Some(package.value.version) else None
  }

  /** The version of the extension: that of the last package description in it. */
  function VersionOf(p: Platform, es: seq<Entry>): Option<string> {
    if es == [] then None
    else if Inside(es[|es| - 1].name) == Some("package.json") then OwnVersion(p, es[|es| - 1].data)
    else VersionOf(p, es[..|es| - 1])
  }

  // ----- what acceptance means -----

  /** Every byte of the end record and its comment is the end of the buffer. */
  predicate IsEnd(b: Bytes, i: nat) {
    i + END_SIZE <= |b| && U32(b, i) == 0x06054b50 && i + END_SIZE + U16(b, i + 20) == |b|
  }

  predicate CrcMatches(b: Bytes, at: nat, data: Bytes)
    requires at + 4 <= |b|
  {
    BitString(b[at..at + 4]) == Crc(data)
  }

  /** The central record lies inside the directory and names a safe path. */
  predicate CentralOk(p: Platform, b: Bytes, end: nat, e: Entry) {
    && e.central + 46 <= e.centralEnd <= end <= |b|
    && U32(b, e.central) == 0x02014b50
    && e.centralEnd == e.central + 46 + U16(b, e.central + 28) + U16(b, e.central + 30) + U16(b, e.central + 32)
    && p.decode(b[e.central + 46..e.central + 46 + U16(b, e.central + 28)]) == Some(e.name)
    && SafeName(e.name, U16(b, e.central + 28))
    && PlainRecord(b, e.central)
  }

  /** Nothing encrypted, stored or deflated only, on this disk, and no symbolic link. */
  predicate PlainRecord(b: Bytes, central: nat)
    requires central + 46 <= |b|
  {
    && AllowedFlags(U16(b, central + 8)) && (U16(b, central + 10) == 0 || U16(b, central + 10) == 8)
    && U16(b, central + 34) == 0 && U32(b, central + 38) / 0x1000_0000 != 10
  }

  /** The local header it points to lies, with its data, before the directory ... */
  predicate LocalRange(b: Bytes, start: nat, central: nat, offset: nat, finish: nat) {
    && central + 46 <= |b| && start <= |b|
    && offset == U32(b, central + 42)
    && offset + 30 <= finish <= start
    && U32(b, offset) == 0x04034b50
    && finish == offset + 30 + U16(b, offset + 26) + U16(b, offset + 28) + U32(b, central + 20)
  }

  function LocalName(b: Bytes, offset: nat): Bytes
    requires offset + 30 <= |b|
  {
    Sub(b, offset + 30, offset + 30 + U16(b, offset + 26))
  }

  function CentralName(b: Bytes, central: nat): Bytes
    requires central + 46 <= |b|
  {
    Sub(b, central + 46, central + 46 + U16(b, central + 28))
  }

  /** ... and repeats the name, the method and the flags. */
  predicate SameHeader(b: Bytes, central: nat, offset: nat) {
    && central + 46 <= |b| && offset + 30 <= |b|
    && LocalName(b, offset) == CentralName(b, central)
    && U16(b, offset + 8) == U16(b, central + 10) && U16(b, offset + 6) == U16(b, central + 8)
  }

  /** Where the data of the local header ends that the central record points to. */
  function FinishAt(b: Bytes, central: nat): nat
    requires central + 46 <= |b|
  {
    var offset := U32(b, central + 42);
    if offset + 30 > |b| then 0 else offset + 30 + U16(b, offset + 26) + U16(b, offset + 28) + U32(b, central + 20)
  }

  predicate LocalOk(b: Bytes, start: nat, central: nat, offset: nat, finish: nat) {
    LocalRange(b, start, central, offset, finish) && SameHeader(b, central, offset)
  }

  /** The bytes after the local header, unpacked by the recorded method. */
  function Unpacked(p: Platform, b: Bytes, central: nat, offset: nat, finish: nat): Option<Bytes>
    requires central + 46 <= |b| && offset + 30 <= |b|
  {
    var raw := Sub(b, offset + 30 + U16(b, offset + 26) + U16(b, offset + 28), finish);
    var size := U32(b, central + 24);
    if U16(b, central + 10) == 0 then Some(raw) else p.inflate(raw, if size > 1 then size else 1)
  }

  /** Without a descriptor the local header repeats the checksum and both sizes. */
  predicate SameSizes(b: Bytes, central: nat, offset: nat)
    requires central + 46 <= |b| && offset + 30 <= |b|
  {
    HasDescriptor(U16(b, central + 8))
    || (U32(b, offset + 14) == U32(b, central + 16) && U32(b, offset + 18) == U32(b, central + 20)
       && U32(b, offset + 22) == U32(b, central + 24))
  }

  /** The unpacked data has the recorded size and checksum. */
  predicate DataOk(p: Platform, b: Bytes, central: nat, offset: nat, finish: nat, data: Bytes) {
    && central + 46 <= |b| && offset + 30 <= |b|
    && Unpacked(p, b, central, offset, finish) == Some(data)
    && |data| == U32(b, central + 24) <= MAX_FILE && CrcMatches(b, central + 16, data)
    && SameSizes(b, central, offset)
  }

  predicate EntryOk(p: Platform, b: Bytes, start: nat, end: nat, e: Entry) {
    && CentralOk(p, b, end, e) && LocalOk(b, start, e.central, e.offset, e.finish)
    && DataOk(p, b, e.central, e.offset, e.finish, e.data)
  }

  /** The entry that the central record alone decides, if there is one. */
  function EntryAt(p: Platform, b: Bytes, central: nat): Entry {
    if central + 46 > |b| then Entry(central, 0, 0, 0, "", [])
    else
      var nameSize, offset, finish := U16(b, central + 28), U32(b, central + 42), FinishAt(b, central);
      var name := p.decode(Sub(b, central + 46, central + 46 + nameSize));
      var data := if offset + 30 <= |b| then Unpacked(p, b, central, offset, finish) else None;
      Entry(central, central + 46 + nameSize + U16(b, central + 30) + U16(b, central + 32), offset, finish,
            if name.Some? then name.value else "", if data.Some? then data.value else [])
  }

  lemma EntryDetermined(p: Platform, b: Bytes, start: nat, end: nat, e: Entry)
    requires EntryOk(p, b, start, end, e)
    ensures e == EntryAt(p, b, e.central) && e.central + 46 <= |b|
    ensures e.offset == U32(b, e.central + 42) && e.finish == FinishAt(b, e.central)
  {
  }

  /** The entries that agree with their central record, their local header and their checksum. */
  ghost function Good(p: Platform, b: Bytes, start: nat, end: nat): iset<Entry> {
    iset e: Entry | EntryOk(p, b, start, end, e)
  }

  predicate Disjoint(a: Entry, c: Entry) {
    a.finish <= c.offset || c.finish <= a.offset
  }

  function TotalSize(es: seq<Entry>): nat {
    if es == [] then 0 else TotalSize(es[..|es| - 1]) + |es[|es| - 1].data|
  }

  predicate Shape(e: Entry, start: nat, end: nat) {
    e.central + 46 <= e.centralEnd <= end && e.offset + 30 <= e.finish <= start
  }

  /** Contiguous central records from `start` up to `cursor`; no range and no folded name used twice. */
  ghost predicate Laid(fold: string -> string, start: nat, end: nat, cursor: nat, es: seq<Entry>) {
    && (forall i :: 0 <= i < |es| ==> Shape(es[i], start, end))
    && (forall i :: 0 <= i < |es| ==> Follows(start, es, i))
    && cursor == CursorBefore(start, es, |es|)
    && (forall i, j :: 0 <= i < j < |es| ==> Disjoint(es[i], es[j]))
    && (forall i, j :: 0 <= i < j < |es| ==> fold(es[i].name) != fold(es[j].name))
    && TotalSize(es) <= MAX_TOTAL
  }

  predicate Follows(start: nat, es: seq<Entry>, i: nat)
    requires i < |es|
  {
    es[i].central == CursorBefore(start, es, i)
  }

  function CursorBefore(start: nat, es: seq<Entry>, i: nat): nat
    requires i <= |es|
  {
    if i == 0 then start else es[i - 1].centralEnd
  }

  // ----- the verifier -----

  /** The end record nearest the end of the buffer, looking no further back than a comment can reach. */
  method FindEnd(b: Bytes) returns (r: Option<nat>)
    ensures r.Some? ==> IsEnd(b, r.value) && forall i :: r.value < i && i + END_SIZE <= |b| ==> !IsEnd(b, i)
    ensures r.None? ==> forall i: nat :: |b| <= i + MAX_END ==> !IsEnd(b, i)
  {
    if |b| < END_SIZE { return None; }
    var low := if |b| > MAX_END then |b| - MAX_END else 0;
    var i := |b| - END_SIZE;
    while i >= low
      invariant low - 1 <= i <= |b| - END_SIZE
      invariant forall k :: i < k && k + END_SIZE <= |b| ==> !IsEnd(b, k)
    {
      if U32(b, i) == 0x06054b50 && i + END_SIZE + U16(b, i + 20) == |b| { return Some(i); }
      i := i - 1;
    }
    return None;
  }

  /** The central record at `cursor`: its name and where it ends. */
  method ReadCentral(p: Platform, b: Bytes, end: nat, cursor: nat) returns (r: Option<(string, nat)>)
    requires end <= |b|
    ensures forall e: Entry :: e.central == cursor ==> (CentralOk(p, b, end, e) <==> r == Some((e.name, e.centralEnd)))
  {
    if cursor + 46 > end || U32(b, cursor) != 0x02014b50 { return None; }
    var nameSize, extra, comment := U16(b, cursor + 28), U16(b, cursor + 30), U16(b, cursor + 32);
    var nameBytes := Sub(b, cursor + 46, cursor + 46 + nameSize);
    var name := p.decode(nameBytes);
    if cursor + 46 + nameSize + extra + comment > end || name.None? || !SafeName(name.value, nameSize)
       || !AllowedFlags(U16(b, cursor + 8)) || (U16(b, cursor + 10) != 0 && U16(b, cursor + 10) != 8)
       || U16(b, cursor + 34) != 0 || U32(b, cursor + 38) / 0x1000_0000 == 10 {
      return None;
    }
    return Some((name.value, cursor + 46 + nameSize + extra + comment));
  }

  /** The local header of the record at `cursor`: its offset and where its data ends. */
  method ReadLocal(b: Bytes, start: nat, cursor: nat) returns (r: Option<(nat, nat)>)
    requires start <= |b| && cursor + 46 <= |b|
    ensures r.Some? <==> LocalOk(b, start, cursor, U32(b, cursor + 42), FinishAt(b, cursor))
    ensures r.Some? ==> r.value == (U32(b, cursor + 42), FinishAt(b, cursor))
  {
    var range := ReadRange(b, start, cursor);
    if range.None? || !SameHeader(b, cursor, range.value.0) { return None; }
    return range;
  }

  method ReadRange(b: Bytes, start: nat, cursor: nat) returns (r: Option<(nat, nat)>)
    requires start <= |b| && cursor + 46 <= |b|
    ensures r.Some? <==> LocalRange(b, start, cursor, U32(b, cursor + 42), FinishAt(b, cursor))
    ensures r.Some? ==> r.value == (U32(b, cursor + 42), FinishAt(b, cursor))
  {
    var offset := U32(b, cursor + 42);
    if offset + 30 > start || U32(b, offset) != 0x04034b50 { return None; }
    var from := offset + 30 + U16(b, offset + 26) + U16(b, offset + 28);
    var finish := from + U32(b, cursor + 20);
    if finish > start { return None; }
    return Some((offset, finish));
  }

  /** Unpack the bytes of one entry and hold them against the recorded sizes and checksum. */
  method ReadData(p: Platform, b: Bytes, cursor: nat, offset: nat, finish: nat) returns (r: Option<Bytes>)
    requires cursor + 46 <= |b| && offset + 30 <= |b|
    ensures forall data :: DataOk(p, b, cursor, offset, finish, data) <==> r == Some(data)
  {
    var compressed, size := U32(b, cursor + 20), U32(b, cursor + 24);
    if size > MAX_FILE { return None; }
    var raw := Sub(b, offset + 30 + U16(b, offset + 26) + U16(b, offset + 28), finish);
    var data := if U16(b, cursor + 10) == 0 then Some(raw) else p.inflate(raw, if size > 1 then size else 1);
    if data.None? || |data.value| != size { return None; }
    var crc := Compute(data.value);
    if BitString(b[cursor + 16..cursor + 20]) != crc { return None; }
    if !HasDescriptor(U16(b, cursor + 8))
       && (U32(b, offset + 14) != U32(b, cursor + 16) || U32(b, offset + 18) != compressed
          || U32(b, offset + 22) != size) {
      return None;
    }
    return data;
  }

  /** `good` are the entries that can be read. */
  ghost predicate Describes(p: Platform, b: Bytes, start: nat, end: nat, good: iset<Entry>) {
    forall e {:trigger EntryOk(p, b, start, end, e)} :: EntryOk(p, b, start, end, e) <==> e in good
  }

  /** One turn of the loop: the one entry that can be read at `cursor`, if there is one. */
  method ReadEntry(p: Platform, b: Bytes, start: nat, end: nat, cursor: nat, ghost good: iset<Entry>)
    returns (r: Option<Entry>)
    requires start <= end <= |b| && Describes(p, b, start, end, good)
    ensures r.Some? ==> r.value in good && r.value.central == cursor && Shape(r.value, start, end)
    ensures r.None? ==> forall e :: e in good ==> e.central != cursor
  {
    forall e | e in good ensures EntryOk(p, b, start, end, e) { assert EntryOk(p, b, start, end, e) <==> e in good; }
    var central := ReadCentral(p, b, end, cursor);
    if central.None? { return None; }
    ghost var probe := Entry(cursor, central.value.1, 0, 0, central.value.0, []);
    assert CentralOk(p, b, end, probe);
    var local := ReadLocal(b, start, cursor);
    forall e | e in good && e.central == cursor ensures local == Some((e.offset, e.finish)) {
      EntryDetermined(p, b, start, end, e);
    }
    if local.None? { return None; }
    var data := ReadData(p, b, cursor, local.value.0, local.value.1);
    if data.None? { return None; }
    var e := Entry(cursor, central.value.1, local.value.0, local.value.1, central.value.0, data.value);
    assert CentralOk(p, b, end, e) && EntryOk(p, b, start, end, e);
    return Some(e);
  }

  /** The end record: where the central directory starts and ends, and how many entries it holds. */
  ghost predicate IsEndRecord(b: Bytes, start: nat, end: nat, count: nat) {
    && IsEnd(b, end) && (forall i :: end < i ==> !IsEnd(b, i)) && U32(b, end + 16) == start
       && start + U32(b, end + 12) == end
    && U16(b, end + 10) == U16(b, end + 8) == count && 0 < count <= MAX_ENTRIES
    && U16(b, end + 4) == 0 && U16(b, end + 6) == 0
  }

  method ReadEndRecord(b: Bytes) returns (r: Option<(nat, nat, nat)>)
    ensures forall start: nat, end: nat, count: nat ::
              IsEndRecord(b, start, end, count) <==> r == Some((start, end, count))
  {
    var found := FindEnd(b);
    if found.None? { return None; }
    var at := found.value;
    if U16(b, at + 4) != 0 || U16(b, at + 6) != 0 { return None; }
    var count, start := U16(b, at + 10), U32(b, at + 16);
    if count == 0 || count > MAX_ENTRIES || start + U32(b, at + 12) != at || U16(b, at + 8) != count { return None; }
    return Some((start, at, count));
  }

  /** `es` are all the entries of the directory, every package description among them the extension's own. */
  ghost predicate IsDirectoryOf(p: Platform, good: iset<Entry>, start: nat, end: nat, count: nat, es: seq<Entry>) {
    && |es| == count && Laid(p.fold, start, end, end, es)
    && (forall i :: 0 <= i < |es| ==> es[i] in good)
    && (forall i :: 0 <= i < |es| ==> OwnPackage(p, es[i]))
  }

  predicate OwnPackage(p: Platform, e: Entry) {
    Inside(e.name) == Some("package.json") ==> OwnVersion(p, e.data).Some?
  }

  /** The archive and the request agree, with `es` the entries of the archive. */
  ghost predicate Accepted(p: Platform, b: Bytes, request: Request, start: nat, end: nat, es: seq<Entry>) {
    && |b| <= MAX_ARCHIVE
    && IsEndRecord(b, start, end, |es|)
    && IsDirectoryOf(p, Good(p, b, start, end), start, end, |es|, es)
    && p.sha256(b) == request.artifactDigest
    && p.manifestOf(FilesOf(p, es)) == Some(request.manifestDigest)
    && VersionOf(p, es) == Some(request.packageVersion)
  }

  /**
   `verifyVsix`: it accepts exactly the archives whose central records tile the directory, no two
   names of which agree up to case, no two local ranges overlap, every entry matches its headers and
   its checksum, and the extension's files and version are the requested ones.
   */
  method Verify(p: Platform, b: Bytes, request: Request)
    returns (ok: bool, ghost start: nat, ghost end: nat, ghost es: seq<Entry>)
    ensures ok ==> Accepted(p, b, request, start, end, es)
    ensures !ok ==> forall s: nat, e: nat, xs: seq<Entry> :: !Accepted(p, b, request, s, e, xs)
  {
    ok, start, end, es := false, 0, 0, [];
    if |b| > MAX_ARCHIVE || p.sha256(b) != request.artifactDigest { return; }
    var record := ReadEndRecord(b);
    if record.None? { return; }
    start, end := record.value.0, record.value.1;
    var r, entries := ReadAll(p, b, record.value.0, record.value.1, record.value.2);
    if r.None? { return; }
    if p.manifestOf(r.value.0) != Some(request.manifestDigest) || r.value.1 != Some(request.packageVersion) { return; }
    ok, es := true, entries;
  }

  /** The one way to read the directory, if there is one. */
  method ReadAll(p: Platform, b: Bytes, start: nat, end: nat, count: nat)
    returns (r: Option<(map<string, string>, Option<string>)>, ghost es: seq<Entry>)
    requires start <= end <= |b|
    ensures r.Some? ==> IsDirectoryOf(p, Good(p, b, start, end), start, end, count, es)
    ensures r.Some? ==> r.value == (FilesOf(p, es), VersionOf(p, es))
    ensures forall xs :: IsDirectoryOf(p, Good(p, b, start, end), start, end, count, xs) ==> r.Some? && xs == es
  {
    GoodIsUnique(p, b, start, end);
    ghost var good := Good(p, b, start, end);
    ghost var want := if exists xs :: IsDirectoryOf(p, good, start, end, count, xs)
                      then var xs :| IsDirectoryOf(p, good, start, end, count, xs); xs else [];
    r, es := ReadDirectory(p, b, start, end, count, good, want);
    if r.Some? { DirectoryUnique(p, good, start, end, count, es); }
  }

  /** No two readable entries share a central record. */
  ghost predicate OnePerRecord(good: iset<Entry>) {
    forall e, x :: e in good && x in good && e.central == x.central ==> e == x
  }

  lemma GoodIsUnique(p: Platform, b: Bytes, start: nat, end: nat)
    ensures OnePerRecord(Good(p, b, start, end)) && Describes(p, b, start, end, Good(p, b, start, end))
  {
    forall e | e in Good(p, b, start, end) ensures e == EntryAt(p, b, e.central) {
      EntryDetermined(p, b, start, end, e);
    }
  }

  /** There is at most one way to read a directory. */
  lemma DirectoryUnique(p: Platform, good: iset<Entry>, start: nat, end: nat, count: nat, es: seq<Entry>)
    requires OnePerRecord(good) && IsDirectoryOf(p, good, start, end, count, es)
    ensures forall xs :: IsDirectoryOf(p, good, start, end, count, xs) ==> xs == es
  {
    forall xs | IsDirectoryOf(p, good, start, end, count, xs) ensures xs == es {
      SamePrefix(p, good, start, end, es, xs, count);
      assert xs[..count] == xs && es[..count] == es;
    }
  }

  lemma {:induction false} SamePrefix(p: Platform, good: iset<Entry>, start: nat, end: nat, es: seq<Entry>,
                                      xs: seq<Entry>, n: nat)
    requires OnePerRecord(good) && n <= |es| == |xs|
    requires IsDirectoryOf(p, good, start, end, |es|, es) && IsDirectoryOf(p, good, start, end, |es|, xs)
    ensures es[..n] == xs[..n]
  {
    if n > 0 {
      SamePrefix(p, good, start, end, es, xs, n - 1);
      assert Follows(start, es, n - 1) && Follows(start, xs, n - 1);
      if n > 1 { assert es[..n - 1][n - 2] == xs[..n - 1][n - 2]; }
      assert es[n - 1] == xs[n - 1];
      assert es[..n] == es[..n - 1] + [es[n - 1]] && xs[..n] == xs[..n - 1] + [xs[n - 1]];
    }
  }

  /** What is known at the `n`-th turn of the loop about the directory that is to be read. */
  lemma Wanted(p: Platform, good: iset<Entry>, start: nat, end: nat, count: nat, want: seq<Entry>, es: seq<Entry>)
    requires IsDirectoryOf(p, good, start, end, count, want) && |es| < count && es == want[..|es|]
    ensures want[|es|] in good && want[|es|].central == CursorBefore(start, es, |es|) && OwnPackage(p, want[|es|])
    ensures Fits(p.fold, es, want[|es|])
  {
    var n := |es|;
    assert Follows(start, want, n);
    WantedTotal(want, es, n);
  }

  lemma {:induction false} WantedTotal(want: seq<Entry>, es: seq<Entry>, n: nat)
    requires n == |es| < |want| && es == want[..n]
    ensures TotalSize(es) + |want[n].data| <= TotalSize(want) && forall i :: 0 <= i < n ==> es[i] == want[i]
  {
    TotalGrows(want, n + 1);
    assert want[..n + 1][..n] == es;
  }

  lemma {:induction false} TotalGrows(es: seq<Entry>, n: nat)
    requires n <= |es|
    ensures TotalSize(es[..n]) <= TotalSize(es)
  {
    if n == |es| {
      assert es[..n] == es;
    } else {
      TotalGrows(es[..|es| - 1], n);
      assert es[..|es| - 1][..n] == es[..n];
    }
  }

  /**
   The loop over the central directory. It yields the digests and the package version found; the
   directory `want`, if it is one, is what it reads.
   */
  method ReadDirectory(p: Platform, b: Bytes, start: nat, end: nat, count: nat, ghost good: iset<Entry>,
                       ghost want: seq<Entry>)
    returns (r: Option<(map<string, string>, Option<string>)>, ghost es: seq<Entry>)
    requires start <= end <= |b| && Describes(p, b, start, end, good) && OnePerRecord(good)
    ensures r.Some? ==> IsDirectoryOf(p, good, start, end, count, es)
    ensures r.Some? ==> r.value.0 == FilesOf(p, es) && r.value.1 == VersionOf(p, es)
    ensures IsDirectoryOf(p, good, start, end, count, want) ==> r.Some?
  {
    es := [];
    var files: map<string, string> := map[];
    var names: set<string> := {};
    var ranges: seq<(nat, nat)> := [];
    var version: Option<string> := None;
    var cursor, total := start, 0;
    for n := 0 to count
      invariant |es| == n && Laid(p.fold, start, end, cursor, es)
      invariant forall i :: 0 <= i < n ==> es[i] in good && OwnPackage(p, es[i])
      invariant files == FilesOf(p, es) && version == VersionOf(p, es) && total == TotalSize(es)
      invariant Recorded(p.fold, es, names, ranges)
      invariant OnTrack(p, good, start, end, count, want, es)
    {
      StayOnTrack(p, good, start, end, count, want, es, cursor);
      var turn := ReadNext(p, b, start, end, cursor, names, ranges, total, files, version, es, good);
      if turn.None? { return None, es; }
      var e := turn.value.0;
      files, version := turn.value.1, turn.value.2;
      ExtendLaid(p.fold, start, end, cursor, es, e);
      RecordOne(p.fold, es, e, names, ranges);
      names, ranges := names + {p.fold(e.name)}, ranges + [(e.offset, e.finish)];
      cursor, total := e.centralEnd, total + |e.data|;
      es := es + [e];
    }
    EndOfTrack(p, good, start, end, count, want, es, cursor);
    if cursor != end { return None, es; }
    return Some((files, version)), es;
  }

  /** If `want` is the directory, the entries so far are its first ones. */
  ghost predicate OnTrack(p: Platform, good: iset<Entry>, start: nat, end: nat, count: nat, want: seq<Entry>,
                          es: seq<Entry>) {
    IsDirectoryOf(p, good, start, end, count, want) ==> |es| <= |want| && es == want[..|es|]
  }

  /** The entry may come next. */
  ghost predicate MayFollow(p: Platform, good: iset<Entry>, es: seq<Entry>, cursor: nat, e: Entry) {
    e in good && e.central == cursor && Fits(p.fold, es, e) && OwnPackage(p, e)
  }

  lemma StayOnTrack(p: Platform, good: iset<Entry>, start: nat, end: nat, count: nat, want: seq<Entry>, es: seq<Entry>,
                    cursor: nat)
    requires OnTrack(p, good, start, end, count, want, es) && |es| < count && cursor == CursorBefore(start, es, |es|)
             && OnePerRecord(good)
    ensures IsDirectoryOf(p, good, start, end, count, want) ==> exists e :: MayFollow(p, good, es, cursor, e)
    ensures forall e :: MayFollow(p, good, es, cursor, e) ==> OnTrack(p, good, start, end, count, want, es + [e])
  {
    if IsDirectoryOf(p, good, start, end, count, want) {
      Wanted(p, good, start, end, count, want, es);
      assert MayFollow(p, good, es, cursor, want[|es|]);
      forall e | MayFollow(p, good, es, cursor, e) ensures OnTrack(p, good, start, end, count, want, es + [e]) {
        assert e == want[|es|];
        assert es + [e] == want[..|es| + 1];
      }
    }
  }

  lemma EndOfTrack(p: Platform, good: iset<Entry>, start: nat, end: nat, count: nat, want: seq<Entry>, es: seq<Entry>,
                   cursor: nat)
    requires OnTrack(p, good, start, end, count, want, es) && |es| == count && cursor == CursorBefore(start, es, |es|)
    ensures IsDirectoryOf(p, good, start, end, count, want) ==> cursor == end
  {
    if IsDirectoryOf(p, good, start, end, count, want) { assert es == want; }
  }

  /** One turn of the loop: the next entry, filed; none exactly when nothing may come next. */
  method ReadNext(p: Platform, b: Bytes, start: nat, end: nat, cursor: nat, names: set<string>, ranges: seq<(nat, nat)>,
                  total: nat,
                  files: map<string, string>, version: Option<string>, ghost es: seq<Entry>, ghost good: iset<Entry>)
    returns (r: Option<(Entry, map<string, string>, Option<string>)>)
    requires start <= end <= |b| && Describes(p, b, start, end, good) && OnePerRecord(good)
    requires Recorded(p.fold, es, names, ranges) && total == TotalSize(es)
    requires forall i :: 0 <= i < |es| ==> es[i].offset < es[i].finish
    ensures r.Some? ==> MayFollow(p, good, es, cursor, r.value.0) && Shape(r.value.0, start, end)
    ensures r.Some? ==> var e := r.value.0;
              && r.value.1 == (if Inside(e.name).Some? && Inside(e.name).value != "package.json"
                               then files[Inside(e.name).value := p.sha256(e.data)] else files)
              && r.value.2 == if Inside(e.name) == Some("package.json") then OwnVersion(p, e.data) else version
    ensures r.None? ==> forall e :: !MayFollow(p, good, es, cursor, e)
  {
    var entry := ReadEntry(p, b, start, end, cursor, good);
    if entry.None? { return None; }
    var e := entry.value;
    var fits := CheckEntry(p, e, names, ranges, total, es);
    if !fits { return None; }
    var filed := FileEntry(p, e, files, version);
    if filed.None? { return None; }
    return Some((e, filed.value.0, filed.value.1));
  }

  /** A new entry neither overlaps an earlier one nor repeats its name, and does not exceed the total. */
  ghost predicate Fits(fold: string -> string, es: seq<Entry>, e: Entry) {
    && (forall i :: 0 <= i < |es| ==> Disjoint(es[i], e) && fold(es[i].name) != fold(e.name))
    && TotalSize(es) + |e.data| <= MAX_TOTAL
  }

  /** The folded names and the ranges of the entries so far. */
  ghost predicate Recorded(fold: string -> string, es: seq<Entry>, names: set<string>, ranges: seq<(nat, nat)>) {
    && |ranges| == |es| && (forall i :: 0 <= i < |es| ==> ranges[i] == (es[i].offset, es[i].finish))
    && (forall i :: 0 <= i < |es| ==> fold(es[i].name) in names)
    && (forall x :: x in names ==> exists i :: 0 <= i < |es| && fold(es[i].name) == x)
  }

  lemma RecordOne(fold: string -> string, es: seq<Entry>, e: Entry, names: set<string>, ranges: seq<(nat, nat)>)
    requires Recorded(fold, es, names, ranges)
    ensures Recorded(fold, es + [e], names + {fold(e.name)}, ranges + [(e.offset, e.finish)])
  {
    var es' := es + [e];
    assert es'[|es|] == e;
    forall x | x in names ensures exists i :: 0 <= i < |es'| && fold(es'[i].name) == x {
      var i :| 0 <= i < |es| && fold(es[i].name) == x;
      assert es'[i] == es[i];
    }
  }

  method CheckEntry(p: Platform, e: Entry, names: set<string>, ranges: seq<(nat, nat)>, total: nat,
                    ghost es: seq<Entry>)
    returns (ok: bool)
    requires Recorded(p.fold, es, names, ranges) && total == TotalSize(es) && e.offset < e.finish
    requires forall i :: 0 <= i < |es| ==> es[i].offset < es[i].finish
    ensures ok <==> Fits(p.fold, es, e)
  {
    if p.fold(e.name) in names { return false; }
    if Overlaps(ranges, e.offset, e.finish) {
      ghost var i :| 0 <= i < |ranges| && e.offset < ranges[i].1 && e.finish > ranges[i].0;
      assert !Disjoint(es[i], e);
      return false;
    }
    forall i | 0 <= i < |es| ensures Disjoint(es[i], e) { assert ranges[i] == (es[i].offset, es[i].finish); }
    return total + |e.data| <= MAX_TOTAL;
  }

  predicate Overlaps(ranges: seq<(nat, nat)>, offset: nat, finish: nat) {
    exists i :: 0 <= i < |ranges| && offset < ranges[i].1 && finish > ranges[i].0
  }

  /** Record the digest of a file of the extension, or the version in its package description. */
  method FileEntry(p: Platform, e: Entry, files: map<string, string>, version: Option<string>)
    returns (r: Option<(map<string, string>, Option<string>)>)
    ensures r.Some? ==>
              r.value.0 == if Inside(e.name).Some? && Inside(e.name).value != "package.json"
                           then files[Inside(e.name).value := p.sha256(e.data)] else files
    ensures r.Some? ==> r.value.1 == if Inside(e.name) == Some("package.json") then OwnVersion(p, e.data) else version
    ensures r.Some? <==> OwnPackage(p, e)
  {
    var inside := Inside(e.name);
    if inside.None? { return Some((files, version)); }
    if inside.value != "package.json" { return Some((files[inside.value := p.sha256(e.data)], version)); }
    var package := p.packageOf(e.data);
    if package.None? || package.value.publisher != "smallcloud" || package.value.name != "codify" { return None; }
    return Some((files, Some(package.value.version)));
  }

  lemma ExtendLaid(fold: string -> string, start: nat, end: nat, cursor: nat, es: seq<Entry>, e: Entry)
    requires Laid(fold, start, end, cursor, es) && Shape(e, start, end) && e.central == cursor && Fits(fold, es, e)
    ensures Laid(fold, start, end, e.centralEnd, es + [e])
    ensures TotalSize(es + [e]) == TotalSize(es) + |e.data| && (es + [e])[..|es|] == es
  {
    var es' := es + [e];
    assert es'[..|es|] == es;
    forall i | 0 <= i < |es'| ensures Shape(es'[i], start, end) && Follows(start, es', i) {
      if i < |es| { assert es'[i] == es[i] && Follows(start, es, i); }
    }
    PairsApart(fold, es, e);
  }

  lemma PairsApart(fold: string -> string, es: seq<Entry>, e: Entry)
    requires forall i, j :: 0 <= i < j < |es| ==> Disjoint(es[i], es[j])
    requires forall i, j :: 0 <= i < j < |es| ==> fold(es[i].name) != fold(es[j].name)
    requires Fits(fold, es, e)
    ensures var all := es + [e];
            && (forall i, j :: 0 <= i < j < |all| ==> Disjoint(all[i], all[j]))
            && (forall i, j :: 0 <= i < j < |all| ==> fold(all[i].name) != fold(all[j].name))
  {
    var all := es + [e];
    forall i, j | 0 <= i < j < |all| ensures Disjoint(all[i], all[j]) && fold(all[i].name) != fold(all[j].name) {
      assert all[i] == es[i];
      if j < |es| { assert all[j] == es[j]; }
    }
  }

  // ----- consequences of acceptance -----

  function RangeSum(es: seq<Entry>): int {
    if es == [] then 0 else RangeSum(es[..|es| - 1]) + (es[|es| - 1].finish - es[|es| - 1].offset)
  }

  function CentralSum(es: seq<Entry>): int {
    if es == [] then 0 else CentralSum(es[..|es| - 1]) + (es[|es| - 1].centralEnd - es[|es| - 1].central)
  }

  function Cells(lo: nat, hi: nat): set<nat>
    requires lo <= hi
    decreases hi - lo
  {
    if lo == hi then {} else Cells(lo, hi - 1) + {hi - 1}
  }

  lemma {:induction false} InCells(lo: nat, hi: nat, x: nat)
    requires lo <= hi
    ensures x in Cells(lo, hi) <==> lo <= x < hi
    decreases hi - lo
  {
    if lo < hi { InCells(lo, hi - 1, x); }
  }

  lemma {:induction false} CellsSize(lo: nat, hi: nat)
    requires lo <= hi
    ensures |Cells(lo, hi)| == hi - lo
    decreases hi - lo
  {
    if lo < hi {
      CellsSize(lo, hi - 1);
      InCells(lo, hi - 1, hi - 1);
    }
  }

  function Covered(es: seq<Entry>): set<nat>
    requires forall i :: 0 <= i < |es| ==> es[i].offset <= es[i].finish
  {
    if es == [] then {} else Covered(es[..|es| - 1]) + Cells(es[|es| - 1].offset, es[|es| - 1].finish)
  }

  lemma {:induction false} CoveredBy(es: seq<Entry>, x: nat)
    requires (forall i :: 0 <= i < |es| ==> es[i].offset <= es[i].finish) && x in Covered(es)
    ensures exists i :: 0 <= i < |es| && es[i].offset <= x < es[i].finish
  {
    var last := es[|es| - 1];
    InCells(last.offset, last.finish, x);
    if !(last.offset <= x < last.finish) {
      CoveredBy(es[..|es| - 1], x);
      var i :| 0 <= i < |es| - 1 && es[..|es| - 1][i].offset <= x < es[..|es| - 1][i].finish;
      assert es[i].offset <= x < es[i].finish;
    }
  }

  lemma {:induction false} DisjointRangesAddUp(es: seq<Entry>)
    requires forall i :: 0 <= i < |es| ==> es[i].offset <= es[i].finish
    requires forall i, j :: 0 <= i < j < |es| ==> Disjoint(es[i], es[j])
    ensures |Covered(es)| == RangeSum(es)
  {
    if es != [] {
      var rest, last := es[..|es| - 1], es[|es| - 1];
      DisjointRangesAddUp(rest);
      CellsSize(last.offset, last.finish);
      forall x | x in Covered(rest) ensures x !in Cells(last.offset, last.finish) {
        CoveredBy(rest, x);
        InCells(last.offset, last.finish, x);
        var i :| 0 <= i < |rest| && rest[i].offset <= x < rest[i].finish;
        assert Disjoint(es[i], es[|es| - 1]);
      }
      assert |Covered(rest) + Cells(last.offset, last.finish)| == |Covered(rest)| + |Cells(last.offset, last.finish)|;
    }
  }

  /** The local ranges cannot claim more bytes than lie before the central directory. */
  lemma LocalRangesFit(fold: string -> string, start: nat, end: nat, cursor: nat, es: seq<Entry>)
    requires Laid(fold, start, end, cursor, es)
    ensures RangeSum(es) <= start
  {
    forall i | 0 <= i < |es| ensures es[i].offset <= es[i].finish <= start { assert Shape(es[i], start, end); }
    DisjointRangesAddUp(es);
    forall x | x in Covered(es) ensures x in Cells(0, start) {
      CoveredBy(es, x);
      InCells(0, start, x);
    }
    SubsetSize(Covered(es), Cells(0, start));
    CellsSize(0, start);
  }

  /** The central records fill the directory to the last byte. */
  lemma {:induction false} CentralRecordsTile(fold: string -> string, start: nat, end: nat, cursor: nat, es: seq<Entry>)
    requires Laid(fold, start, end, cursor, es)
    ensures CentralSum(es) == cursor - start && 46 * |es| <= cursor - start
    decreases |es|
  {
    if es != [] {
      var rest, last := es[..|es| - 1], es[|es| - 1];
      assert Shape(last, start, end);
      assert Follows(start, es, |rest|);
      forall i | 0 <= i < |rest| ensures Follows(start, rest, i) { assert Follows(start, es, i); }
      assert TotalSize(rest) <= TotalSize(es);
      CentralRecordsTile(fold, start, end, last.central, rest);
    }
  }
}
