/**
 A writer of archives, after the tables of sections 4.3.7 (local header), 4.3.9 (data descriptor),
 4.3.12 (central record) and 4.3.16 (end record) of PKWARE APPNOTE.TXT: field after field, the
 lowest byte of a number first. It knows nothing of the offsets at which the verifier reads.
 */
module VsixWriter {
  import opened Outcome
  import opened Ordering
  import opened Crc32
  import opened CrcNumbers
  import opened VsixArchive

  // ----- fields -----

  /** Two bytes, the lowest first; what does not fit is lost. */
  function Le16(n: nat): (b: Bytes)
    ensures |b| == 2
  {
    [(n % 0x100) as byte, (n / 0x100 % 0x100) as byte]
  }

  function Le32(n: nat): (b: Bytes)
    ensures |b| == 4
  {
    Le16(n % 0x1_0000) + Le16(n / 0x1_0000)
  }

  datatype Field = Short(n: nat) | Long(n: nat) | Raw(bytes: Bytes)

  function Width(f: Field): nat {
    match f
    case Short(_) => 2
    case Long(_) => 4
    case Raw(bytes) => |bytes|
  }

  function Written(f: Field): (b: Bytes)
    ensures |b| == Width(f)
  {
    match f
    case Short(n) => Le16(n)
    case Long(n) => Le32(n)
    case Raw(bytes) => bytes
  }

  function Layout(fs: seq<Field>): Bytes {
    if fs == [] then [] else Layout(fs[..|fs| - 1]) + Written(fs[|fs| - 1])
  }

  /** Where field `i` starts: behind all the fields before it. */
  function At(fs: seq<Field>, i: nat): nat
    requires i <= |fs|
  {
    if i == 0 then 0 else At(fs, i - 1) + Width(fs[i - 1])
  }

  lemma {:induction false} AtPrefix(fs: seq<Field>, n: nat, i: nat)
    requires i <= n <= |fs|
    ensures At(fs[..n], i) == At(fs, i)
  {
    if i > 0 { AtPrefix(fs, n, i - 1); }
  }

  lemma {:induction false} LayoutSize(fs: seq<Field>)
    ensures |Layout(fs)| == At(fs, |fs|)
  {
    if fs != [] {
      LayoutSize(fs[..|fs| - 1]);
      AtPrefix(fs, |fs| - 1, |fs| - 1);
    }
  }

  // ----- reading fields back -----

  /** `part` stands in `b` at `at`. */
  predicate Stands(b: Bytes, at: nat, part: Bytes) {
    at + |part| <= |b| && b[at..at + |part|] == part
  }

  lemma StandsInside(b: Bytes, at: nat, whole: Bytes, k: nat, part: Bytes)
    requires Stands(b, at, whole) && Stands(whole, k, part)
    ensures Stands(b, at + k, part)
  {
    var from := at + k;
    forall j | 0 <= j < |part| ensures b[from..from + |part|][j] == part[j] {
      assert whole[k..k + |part|][j] == whole[k + j] && b[at..at + |whole|][k + j] == b[from + j];
    }
  }

  lemma StandsInPrefix(b: Bytes, more: Bytes, at: nat, part: Bytes)
    requires Stands(b, at, part)
    ensures Stands(b + more, at, part)
  {
    assert (b + more)[at..at + |part|] == b[at..at + |part|];
  }

  lemma ShortReads(b: Bytes, at: nat, n: nat)
    requires n < 0x1_0000 && Stands(b, at, Le16(n))
    ensures at + 2 <= |b| && U16(b, at) == n
  {
    assert b[at] == b[at..at + 2][0] && b[at + 1] == b[at..at + 2][1];
  }

  lemma LongReads(b: Bytes, at: nat, n: nat)
    requires n < 0x1_0000_0000 && Stands(b, at, Le32(n))
    ensures at + 4 <= |b| && U32(b, at) == n
  {
    var low, high := Le16(n % 0x1_0000), Le16(n / 0x1_0000);
    assert Le32(n)[0..2] == low && Le32(n)[2..4] == high;
    StandsInside(b, at, Le32(n), 0, low);
    StandsInside(b, at, Le32(n), 2, high);
    ShortReads(b, at, n % 0x1_0000);
    ShortReads(b, at + 2, n / 0x1_0000);
  }

  /** Four bytes with these values, read as one number. */
  lemma BytesRead(b: Bytes, at: nat, four: Bytes)
    requires |four| == 4 && Stands(b, at, four)
    ensures at + 4 <= |b|
    ensures U32(b, at) == four[0] as nat + 0x100 * four[1] as nat + 0x1_0000 * four[2] as nat
            + 0x100_0000 * four[3] as nat
  {
    forall j | 0 <= j < 4 ensures b[at + j] == four[j] { assert b[at..at + 4][j] == four[j]; }
  }

  /** Each field stands where it was put. */
  lemma {:induction false} FieldStands(fs: seq<Field>, i: nat)
    requires i < |fs|
    ensures Stands(Layout(fs), At(fs, i), Written(fs[i]))
  {
    var n := |fs| - 1;
    var rest := fs[..n];
    LayoutSize(rest);
    AtPrefix(fs, n, i);
    if i < n {
      FieldStands(rest, i);
      StandsInPrefix(Layout(rest), Written(fs[n]), At(fs, i), Written(fs[i]));
    }
  }

  lemma FieldStandsAt(b: Bytes, at: nat, fs: seq<Field>, i: nat, k: nat, part: Bytes)
    requires i < |fs| && Stands(b, at, Layout(fs)) && k == At(fs, i) && part == Written(fs[i])
    ensures Stands(b, at + k, part)
  {
    FieldStands(fs, i);
    StandsInside(b, at, Layout(fs), k, part);
  }

  lemma FieldIsShort(b: Bytes, at: nat, fs: seq<Field>, i: nat, k: nat, n: nat)
    requires i < |fs| && Stands(b, at, Layout(fs)) && k == At(fs, i) && fs[i] == Short(n) && n < 0x1_0000
    ensures at + k + 2 <= |b| && U16(b, at + k) == n
  {
    FieldStandsAt(b, at, fs, i, k, Le16(n));
    ShortReads(b, at + k, n);
  }

  lemma FieldIsLong(b: Bytes, at: nat, fs: seq<Field>, i: nat, k: nat, n: nat)
    requires i < |fs| && Stands(b, at, Layout(fs)) && k == At(fs, i) && fs[i] == Long(n) && n < 0x1_0000_0000
    ensures at + k + 4 <= |b| && U32(b, at + k) == n
  {
    FieldStandsAt(b, at, fs, i, k, Le32(n));
    LongReads(b, at + k, n);
  }

  // ----- what is written -----

  /** The fields of a header that the verifier does not look at. */
  datatype Stamp = Stamp(made: nat, needed: nat, time: nat, date: nat, internal: nat, external: nat)

  /**
   One item to be packed: a file or a directory with its path, its data, and how it is stored.
   `packed` is the deflated form, if it is to be deflated; with `descriptor` the sizes and the
   checksum follow the data instead of preceding it.
   */
  datatype Item = Item(
    path: seq<string>, directory: bool, nameBytes: Bytes, data: Bytes, packed: Option<Bytes>,
    utf8: bool, speed: nat, descriptor: bool, stamp: Stamp)

  function Text(path: seq<string>): string {
    if path == [] then "" else if |path| == 1 then path[0] else path[0] + "/" + Text(path[1..])
  }

  function NameOf(it: Item): string {
    Text(it.path) + if it.directory then "/" else ""
  }

  function RawOf(it: Item): Bytes {
    if it.packed.Some? then it.packed.value else it.data
  }

  function MethodOf(it: Item): nat {
    if it.packed.Some? then 8 else 0
  }

  /** Bit 1 and 2 tell the speed of the compression, bit 3 the descriptor, bit 11 the encoding of the name. */
  function FlagsFor(speed: nat, descriptor: bool, utf8: bool): nat {
    2 * speed + (if descriptor then 8 else 0) + if utf8 then 0x800 else 0
  }

  function FlagsOf(it: Item): nat {
    FlagsFor(it.speed, it.descriptor, it.utf8)
  }

  const NO_CRC: Bytes := [0, 0, 0, 0]

  /** What a local header and a central record say of an item. */
  datatype Header = Header(stamp: Stamp, flags: nat, packing: nat, crc: Bytes, packed: nat, size: nat, name: nat)

  function LocalFields(h: Header): seq<Field> {
    [Raw([0x50, 0x4b, 0x03, 0x04]), Short(h.stamp.needed), Short(h.flags), Short(h.packing), Short(h.stamp.time),
     Short(h.stamp.date), Raw(h.crc), Long(h.packed), Long(h.size), Short(h.name), Short(0)]
  }

  function CentralFields(h: Header, offset: nat): seq<Field> {
    [Raw([0x50, 0x4b, 0x01, 0x02]), Short(h.stamp.made), Short(h.stamp.needed), Short(h.flags), Short(h.packing),
     Short(h.stamp.time), Short(h.stamp.date), Raw(h.crc), Long(h.packed), Long(h.size), Short(h.name), Short(0),
     Short(0), Short(0), Short(h.stamp.internal), Long(h.stamp.external), Long(offset)]
  }

  function EndFields(count: nat, size: nat, start: nat): seq<Field> {
    [Raw([0x50, 0x4b, 0x05, 0x06]), Short(0), Short(0), Short(count), Short(count), Long(size), Long(start), Short(0)]
  }

  predicate SmallStamp(s: Stamp) {
    s.made < 0x1_0000 && s.needed < 0x1_0000 && s.time < 0x1_0000 && s.date < 0x1_0000 && s.internal < 0x1_0000
    && s.external < 0x1_0000_0000
  }

  predicate SmallHeader(h: Header) {
    && SmallStamp(h.stamp) && h.flags < 0x1_0000 && h.packing < 0x1_0000 && |h.crc| == 4
    && h.packed < 0x1_0000_0000 && h.size < 0x1_0000_0000 && h.name < 0x1_0000
  }

  lemma LocalIndexed(h: Header, fs: seq<Field>)
    requires fs == LocalFields(h)
    ensures |fs| == 11 && fs[0] == Raw([0x50, 0x4b, 0x03, 0x04]) && fs[1].Short? && fs[2] == Short(h.flags)
    ensures fs[3] == Short(h.packing) && fs[4].Short? && fs[5].Short? && fs[6] == Raw(h.crc)
    ensures fs[7] == Long(h.packed) && fs[8] == Long(h.size) && fs[9] == Short(h.name) && fs[10] == Short(0)
  {
  }

  lemma LocalOffsets(fs: seq<Field>)
    requires |fs| == 11 && Width(fs[0]) == Width(fs[6]) == 4 && fs[7].Long? && fs[8].Long?
    requires fs[1].Short? && fs[2].Short? && fs[3].Short? && fs[4].Short? && fs[5].Short? && fs[9].Short?
             && fs[10].Short?
    ensures At(fs, 0) == 0 && At(fs, 2) == 6 && At(fs, 3) == 8 && At(fs, 6) == 14 && At(fs, 7) == 18 && At(fs, 8) == 22
    ensures At(fs, 9) == 26 && At(fs, 10) == 28 && At(fs, 11) == 30
  {
    assert At(fs, 1) == 4;
    assert At(fs, 2) == 6;
    assert At(fs, 3) == 8;
    assert At(fs, 4) == 10;
    assert At(fs, 5) == 12;
  }

  lemma CentralIndexed(h: Header, offset: nat, fs: seq<Field>)
    requires fs == CentralFields(h, offset)
    ensures |fs| == 17 && fs[0] == Raw([0x50, 0x4b, 0x01, 0x02]) && fs[1].Short? && fs[2].Short?
    ensures fs[3] == Short(h.flags) && fs[4] == Short(h.packing) && fs[5].Short? && fs[6].Short?
    ensures fs[7] == Raw(h.crc) && fs[8] == Long(h.packed) && fs[9] == Long(h.size) && fs[10] == Short(h.name)
    ensures fs[11] == fs[12] == fs[13] == Short(0) && fs[14].Short? && fs[15] == Long(h.stamp.external)
    ensures fs[16] == Long(offset)
  {
  }

  lemma CentralOffsets(fs: seq<Field>)
    requires |fs| == 17 && Width(fs[0]) == Width(fs[7]) == 4 && fs[8].Long? && fs[9].Long? && fs[15].Long?
             && fs[16].Long?
    requires forall i :: 1 <= i < 7 || 10 <= i < 15 ==> fs[i].Short?
    ensures At(fs, 0) == 0 && At(fs, 3) == 8 && At(fs, 4) == 10 && At(fs, 7) == 16 && At(fs, 8) == 20 && At(fs, 9) == 24
    ensures At(fs, 10) == 28 && At(fs, 11) == 30 && At(fs, 12) == 32 && At(fs, 13) == 34 && At(fs, 15) == 38
    ensures At(fs, 16) == 42 && At(fs, 17) == 46
  {
    assert At(fs, 1) == 4;
    assert At(fs, 2) == 6;
    assert At(fs, 3) == 8;
    assert At(fs, 4) == 10;
    assert At(fs, 5) == 12;
    assert At(fs, 6) == 14;
    assert At(fs, 7) == 16;
    assert At(fs, 8) == 20;
    assert At(fs, 9) == 24;
    assert At(fs, 10) == 28;
    assert At(fs, 11) == 30;
    assert At(fs, 12) == 32;
    assert At(fs, 13) == 34;
    assert At(fs, 14) == 36;
  }

  lemma EndIndexed(count: nat, size: nat, start: nat, fs: seq<Field>)
    requires fs == EndFields(count, size, start)
    ensures |fs| == 8 && fs[0] == Raw([0x50, 0x4b, 0x05, 0x06]) && fs[1] == fs[2] == fs[7] == Short(0)
    ensures fs[3] == fs[4] == Short(count) && fs[5] == Long(size) && fs[6] == Long(start)
  {
  }

  lemma EndOffsets(fs: seq<Field>)
    requires |fs| == 8 && Width(fs[0]) == 4 && fs[1].Short? && fs[2].Short? && fs[3].Short? && fs[4].Short?
    requires fs[5].Long? && fs[6].Long? && fs[7].Short?
    ensures At(fs, 0) == 0 && At(fs, 1) == 4 && At(fs, 2) == 6 && At(fs, 3) == 8 && At(fs, 4) == 10 && At(fs, 5) == 12
    ensures At(fs, 6) == 16 && At(fs, 7) == 20 && At(fs, 8) == 22
  {
  }

  // ----- headers, read where the verifier reads them -----

  ghost predicate LocalSays(b: Bytes, o: nat, h: Header) {
    && o + 30 <= |b| && U32(b, o) == 0x04034b50 && U16(b, o + 6) == h.flags && U16(b, o + 8) == h.packing
    && b[o + 14..o + 18] == h.crc && U32(b, o + 18) == h.packed && U32(b, o + 22) == h.size
    && U16(b, o + 26) == h.name && U16(b, o + 28) == 0
  }

  ghost predicate CentralSays(b: Bytes, c: nat, h: Header, offset: nat) {
    && c + 46 <= |b| && U32(b, c) == 0x02014b50 && U16(b, c + 8) == h.flags && U16(b, c + 10) == h.packing
    && b[c + 16..c + 20] == h.crc && U32(b, c + 20) == h.packed && U32(b, c + 24) == h.size
    && U16(b, c + 28) == h.name && U16(b, c + 30) == U16(b, c + 32) == U16(b, c + 34) == 0
    && U32(b, c + 38) == h.stamp.external && U32(b, c + 42) == offset
  }

  lemma LocalFits(h: Header)
    requires |h.crc| == 4
    ensures |Layout(LocalFields(h))| == 30
  {
    var fs := LocalFields(h);
    LocalIndexed(h, fs);
    LocalOffsets(fs);
    LayoutSize(fs);
  }

  lemma LocalReads(b: Bytes, o: nat, h: Header, fs: seq<Field>)
    requires SmallHeader(h) && fs == LocalFields(h) && Stands(b, o, Layout(fs))
    ensures LocalSays(b, o, h)
  {
    LocalFits(h);
    LocalIndexed(h, fs);
    LocalOffsets(fs);
    FieldStandsAt(b, o, fs, 0, 0, fs[0].bytes);
    BytesRead(b, o, fs[0].bytes);
    FieldIsShort(b, o, fs, 2, 6, h.flags);
    FieldIsShort(b, o, fs, 3, 8, h.packing);
    FieldStandsAt(b, o, fs, 6, 14, h.crc);
    FieldIsLong(b, o, fs, 7, 18, h.packed);
    FieldIsLong(b, o, fs, 8, 22, h.size);
    FieldIsShort(b, o, fs, 9, 26, h.name);
    FieldIsShort(b, o, fs, 10, 28, 0);
  }

  lemma CentralFits(h: Header, offset: nat)
    requires |h.crc| == 4
    ensures |Layout(CentralFields(h, offset))| == 46
  {
    var fs := CentralFields(h, offset);
    CentralIndexed(h, offset, fs);
    CentralOffsets(fs);
    LayoutSize(fs);
  }

  lemma CentralReads(b: Bytes, c: nat, h: Header, offset: nat, fs: seq<Field>)
    requires SmallHeader(h) && offset < 0x1_0000_0000 && fs == CentralFields(h, offset)
    requires Stands(b, c, Layout(fs))
    ensures CentralSays(b, c, h, offset)
  {
    CentralFits(h, offset);
    CentralIndexed(h, offset, fs);
    CentralOffsets(fs);
    FieldStandsAt(b, c, fs, 0, 0, fs[0].bytes);
    BytesRead(b, c, fs[0].bytes);
    FieldIsShort(b, c, fs, 3, 8, h.flags);
    FieldIsShort(b, c, fs, 4, 10, h.packing);
    FieldStandsAt(b, c, fs, 7, 16, h.crc);
    FieldIsLong(b, c, fs, 8, 20, h.packed);
    FieldIsLong(b, c, fs, 9, 24, h.size);
    CentralReadsRest(b, c, h, offset, fs);
  }

  lemma CentralReadsRest(b: Bytes, c: nat, h: Header, offset: nat, fs: seq<Field>)
    requires SmallHeader(h) && offset < 0x1_0000_0000 && fs == CentralFields(h, offset)
    requires Stands(b, c, Layout(fs))
    ensures c + 46 <= |b| && U16(b, c + 28) == h.name && U16(b, c + 30) == U16(b, c + 32) == U16(b, c + 34) == 0
    ensures U32(b, c + 38) == h.stamp.external && U32(b, c + 42) == offset
  {
    CentralFits(h, offset);
    CentralIndexed(h, offset, fs);
    CentralOffsets(fs);
    FieldIsShort(b, c, fs, 10, 28, h.name);
    FieldIsShort(b, c, fs, 11, 30, 0);
    FieldIsShort(b, c, fs, 12, 32, 0);
    FieldIsShort(b, c, fs, 13, 34, 0);
    FieldIsLong(b, c, fs, 15, 38, h.stamp.external);
    FieldIsLong(b, c, fs, 16, 42, offset);
  }

  // ----- one item -----

  predicate GoodChar(c: char) {
    c as int >= 0x20 && c as int != 0x7f && c != '/' && c != '\\' && c != ':'
  }

  /** A component of a safe path. */
  predicate GoodPart(s: string) {
    s != "" && s != "." && s != ".." && forall i :: 0 <= i < |s| ==> GoodChar(s[i])
  }

  predicate GoodPath(path: seq<string>) {
    path != [] && forall i :: 0 <= i < |path| ==> GoodPart(path[i])
  }

  lemma {:induction false} TextSplits(path: seq<string>)
    requires GoodPath(path)
    ensures SplitOn('/', Text(path)) == path
  {
    assert '/' !in path[0];
    if |path| == 1 {
      SplitName('/', path[0]);
    } else {
      TextSplits(path[1..]);
      SplitAtFirst('/', path[0], Text(path[1..]));
    }
    assert path == [path[0]] + path[1..];
  }

  lemma {:induction false} TextIsSafe(path: seq<string>)
    requires GoodPath(path)
    ensures Text(path) != "" && Text(path)[|Text(path)| - 1] != '/'
    ensures forall i :: 0 <= i < |Text(path)| ==> SafeChar(Text(path)[i])
  {
    if |path| > 1 { TextIsSafe(path[1..]); }
  }

  /** The text of a path of good components is safe. */
  lemma GoodPathIsSafe(path: seq<string>, size: nat)
    requires GoodPath(path) && size < 4096
    ensures SafePath(Text(path), size)
  {
    TextSplits(path);
    TextIsSafe(path);
  }

  lemma {:induction false} TextOfSplit(s: string)
    ensures Text(SplitOn('/', s)) == s
  {
    if s != "" {
      var rest := SplitOn('/', s[1..]);
      TextOfSplit(s[1..]);
      if s[0] == '/' {
        assert ([""] + rest)[1..] == rest;
      } else {
        var parts := [[s[0]] + rest[0]] + rest[1..];
        assert parts[1..] == rest[1..];
        assert s == [s[0]] + s[1..];
      }
    }
  }

  lemma {:induction false} PartsOfSplit(s: string, i: nat, j: nat)
    requires i < |SplitOn('/', s)| && j < |SplitOn('/', s)[i]|
    ensures SplitOn('/', s)[i][j] != '/' && SplitOn('/', s)[i][j] in s
  {
    if s[0] == '/' {
      PartsOfSplit(s[1..], i - 1, j);
    } else if i > 0 {
      PartsOfSplit(s[1..], i, j);
    } else if j > 0 {
      PartsOfSplit(s[1..], 0, j - 1);
    }
  }

  /** The safe paths are exactly the texts of paths of good components. */
  lemma SafePathIsGood(s: string, size: nat)
    ensures SafePath(s, size) <==> size < 4096 && exists path :: GoodPath(path) && s == Text(path)
  {
    if SafePath(s, size) {
      var path := SplitOn('/', s);
      TextOfSplit(s);
      forall i, j | 0 <= i < |path| && 0 <= j < |path[i]| ensures GoodChar(path[i][j]) {
        PartsOfSplit(s, i, j);
      }
      assert GoodPath(path) && s == Text(path);
    }
    if size < 4096 && exists path :: GoodPath(path) && s == Text(path) {
      var path :| GoodPath(path) && s == Text(path);
      GoodPathIsSafe(path, size);
    }
  }

  lemma GoodNameIsSafe(it: Item)
    requires GoodPath(it.path) && |it.nameBytes| < 4096 + (if it.directory then 1 else 0)
    requires it.directory ==> |it.nameBytes| > 0
    ensures SafeName(NameOf(it), |it.nameBytes|) && IsDirectory(NameOf(it)) == it.directory
  {
    var text, name := Text(it.path), NameOf(it);
    TextIsSafe(it.path);
    if it.directory {
      GoodPathIsSafe(it.path, |it.nameBytes| - 1);
      assert name[..|name| - 1] == text;
    } else {
      GoodPathIsSafe(it.path, |it.nameBytes|);
      assert name == text;
    }
  }

  function HeaderOf(it: Item): Header {
    Header(it.stamp, FlagsOf(it), MethodOf(it), StoredCrc(Crc(it.data)), |RawOf(it)|, |it.data|, |it.nameBytes|)
  }

  /** With a descriptor the local header leaves open what is known only afterwards. */
  function LocalHeaderOf(it: Item): Header {
    if it.descriptor then HeaderOf(it).(crc := NO_CRC, packed := 0, size := 0) else HeaderOf(it)
  }

  predicate SmallItem(it: Item) {
    && SmallStamp(it.stamp) && it.speed < 4 && |it.nameBytes| < 0x1_0000
    && |it.data| < 0x1_0000_0000 && |RawOf(it)| < 0x1_0000_0000
  }

  function LocalBytes(g: Header, name: Bytes, raw: Bytes, tail: Bytes): Bytes {
    Layout(LocalFields(g)) + name + raw + tail
  }

  function CentralBytes(h: Header, offset: nat, name: Bytes): Bytes {
    Layout(CentralFields(h, offset)) + name
  }

  lemma CentralSize(h: Header, offset: nat, name: Bytes)
    requires |h.crc| == 4
    ensures |CentralBytes(h, offset, name)| == 46 + |name|
  {
    CentralFits(h, offset);
  }

  lemma LocalSize(g: Header, name: Bytes, raw: Bytes, tail: Bytes)
    requires |g.crc| == 4
    ensures |LocalBytes(g, name, raw, tail)| == 30 + |name| + |raw| + |tail|
  {
    LocalFits(g);
  }

  // ----- where the verifier finds them -----

  ghost predicate Reads(b: Bytes, at: nat, part: Bytes) {
    Sub(b, at, at + |part|) == part
  }

  lemma StandsReads(b: Bytes, at: nat, part: Bytes)
    requires Stands(b, at, part)
    ensures Reads(b, at, part)
  {
  }

  lemma Concatenated(b: Bytes, at: nat, x: Bytes, y: Bytes)
    requires Stands(b, at, x + y)
    ensures Stands(b, at, x) && Stands(b, at + |x|, y)
  {
    assert (x + y)[0..|x|] == x && (x + y)[|x|..|x| + |y|] == y;
    StandsInside(b, at, x + y, 0, x);
    StandsInside(b, at, x + y, |x|, y);
  }

  lemma ThreeParts(b: Bytes, at: nat, head: Bytes, name: Bytes, raw: Bytes, tail: Bytes)
    requires Stands(b, at, head + name + raw + tail)
    ensures Stands(b, at, head) && Reads(b, at + |head|, name) && Reads(b, at + |head| + |name|, raw)
  {
    Concatenated(b, at, head + name + raw, tail);
    Concatenated(b, at, head + name, raw);
    Concatenated(b, at, head, name);
    StandsReads(b, at + |head|, name);
    StandsReads(b, at + |head| + |name|, raw);
  }

  lemma LocalIsPlaced(b: Bytes, o: nat, g: Header, name: Bytes, raw: Bytes, tail: Bytes)
    requires SmallHeader(g) && Stands(b, o, LocalBytes(g, name, raw, tail))
    ensures LocalSays(b, o, g) && Reads(b, o + 30, name) && Reads(b, o + 30 + |name|, raw)
  {
    LocalFits(g);
    ThreeParts(b, o, Layout(LocalFields(g)), name, raw, tail);
    LocalReads(b, o, g, LocalFields(g));
  }

  lemma CentralIsPlaced(b: Bytes, c: nat, h: Header, offset: nat, name: Bytes)
    requires SmallHeader(h) && offset < 0x1_0000_0000 && Stands(b, c, CentralBytes(h, offset, name))
    ensures CentralSays(b, c, h, offset) && Reads(b, c + 46, name)
  {
    CentralFits(h, offset);
    Concatenated(b, c, Layout(CentralFields(h, offset)), name);
    CentralReads(b, c, h, offset, CentralFields(h, offset));
    StandsReads(b, c + 46, name);
  }

  lemma CentralIsOk(p: Platform, b: Bytes, end: nat, e: Entry, h: Header, name: Bytes)
    requires CentralSays(b, e.central, h, e.offset) && Reads(b, e.central + 46, name) && |name| == h.name
    requires p.decode(name) == Some(e.name) && SafeName(e.name, h.name) && AllowedFlags(h.flags)
    requires (h.packing == 0 || h.packing == 8) && h.stamp.external / 0x1000_0000 != 10
    requires e.centralEnd == e.central + 46 + h.name <= end <= |b|
    ensures CentralOk(p, b, end, e)
  {
    assert b[e.central + 46..e.central + 46 + h.name] == name;
  }

  lemma RangeIsOk(b: Bytes, start: nat, e: Entry, h: Header, g: Header)
    requires CentralSays(b, e.central, h, e.offset) && LocalSays(b, e.offset, g) && h.name == g.name
    requires e.finish == e.offset + 30 + h.name + h.packed <= start <= |b|
    ensures LocalRange(b, start, e.central, e.offset, e.finish)
  {
  }

  lemma LocalNameIs(b: Bytes, o: nat, g: Header, name: Bytes)
    requires LocalSays(b, o, g) && Reads(b, o + 30, name) && |name| == g.name
    ensures LocalName(b, o) == name
  {
  }

  lemma CentralNameIs(b: Bytes, c: nat, h: Header, offset: nat, name: Bytes)
    requires CentralSays(b, c, h, offset) && Reads(b, c + 46, name) && |name| == h.name
    ensures CentralName(b, c) == name
  {
  }

  lemma HeaderIsSame(b: Bytes, c: nat, o: nat, h: Header, g: Header)
    requires CentralSays(b, c, h, o) && LocalSays(b, o, g) && Agreeing(h, g) && LocalName(b, o) == CentralName(b, c)
    ensures SameHeader(b, c, o)
  {
  }

  lemma SizesAreSame(b: Bytes, c: nat, o: nat, h: Header, g: Header)
    requires CentralSays(b, c, h, o) && LocalSays(b, o, g) && |h.crc| == 4
    requires HasDescriptor(h.flags) || (g.crc == h.crc && g.packed == h.packed && g.size == h.size)
    ensures SameSizes(b, c, o)
  {
    if !HasDescriptor(h.flags) {
      BytesRead(b, c + 16, h.crc);
      BytesRead(b, o + 14, h.crc);
    }
  }

  lemma UnpackedIs(p: Platform, b: Bytes, e: Entry, h: Header, g: Header, raw: Bytes)
    requires CentralSays(b, e.central, h, e.offset) && LocalSays(b, e.offset, g) && h.name == g.name
    requires Sub(b, e.offset + 30 + h.name, e.finish) == raw
    requires if h.packing == 0 then raw == e.data else p.inflate(raw, if h.size > 1 then h.size else 1) == Some(e.data)
    ensures Unpacked(p, b, e.central, e.offset, e.finish) == Some(e.data)
  {
  }

  lemma DataIsOk(p: Platform, b: Bytes, e: Entry, h: Header, g: Header)
    requires CentralSays(b, e.central, h, e.offset) && LocalSays(b, e.offset, g) && SameSizes(b, e.central, e.offset)
    requires Unpacked(p, b, e.central, e.offset, e.finish) == Some(e.data) && |e.data| == h.size <= MAX_FILE
    requires BitString(h.crc) == Crc(e.data)
    ensures DataOk(p, b, e.central, e.offset, e.finish, e.data)
  {
  }

  /** Both headers say the same, but for what a descriptor says later. */
  predicate Agreeing(h: Header, g: Header) {
    && h.flags == g.flags && h.packing == g.packing && h.name == g.name
    && (HasDescriptor(h.flags) || (g.crc == h.crc && g.packed == h.packed && g.size == h.size))
  }

  // ----- one item in its archive -----

  lemma SmallItemIsSmall(it: Item)
    requires SmallItem(it)
    ensures SmallHeader(HeaderOf(it)) && SmallHeader(LocalHeaderOf(it))
  {
  }

  function DescriptorFields(it: Item): seq<Field> {
    [Raw([0x50, 0x4b, 0x07, 0x08]), Raw(StoredCrc(Crc(it.data))), Long(|RawOf(it)|), Long(|it.data|)]
  }

  function TailOf(it: Item): Bytes {
    if it.descriptor then Layout(DescriptorFields(it)) else []
  }

  function Local(it: Item): Bytes {
    LocalBytes(LocalHeaderOf(it), it.nameBytes, RawOf(it), TailOf(it))
  }

  function Central(it: Item, offset: nat): Bytes {
    CentralBytes(HeaderOf(it), offset, it.nameBytes)
  }

  /** What can be packed and will be accepted. */
  ghost predicate Packable(p: Platform, it: Item) {
    && SmallItem(it) && GoodPath(it.path) && p.decode(it.nameBytes) == Some(NameOf(it))
    && 0 < |it.nameBytes| < 4096 + (if it.directory then 1 else 0)
    && |it.data| <= 0x800_0000
    && (it.packed.Some? ==> p.inflate(it.packed.value, if |it.data| > 1 then |it.data| else 1) == Some(it.data))
    && it.stamp.external / 0x1_0000 / 0x1000 != 0xa
  }

  ghost function PackableBy(p: Platform): iset<Item> {
    iset it: Item | Packable(p, it)
  }

  /** The entry the verifier should find. */
  function Found(it: Item, o: nat, c: nat): Entry {
    Entry(c, c + 46 + |it.nameBytes|, o, o + 30 + |it.nameBytes| + |RawOf(it)|, NameOf(it), it.data)
  }

  lemma FlagsAreAllowed(it: Item)
    requires it.speed < 4
    ensures AllowedFlags(FlagsOf(it)) && HasDescriptor(FlagsOf(it)) == it.descriptor
  {
  }

  /** The flags that are allowed are exactly those a writer may set. */
  lemma AllowedFlagsAre(flags: nat)
    ensures AllowedFlags(flags)
       <==> exists speed: nat, descriptor: bool, utf8: bool ::
              speed < 4 && flags == FlagsFor(speed, descriptor, utf8)
  {
    if AllowedFlags(flags) {
      var low := flags % 0x800;
      var speed, descriptor, utf8 := low % 8 / 2, low >= 8, flags >= 0x800;
      assert flags == FlagsFor(speed, descriptor, utf8);
    }
  }

  /** What the headers of an item say, apart from its checksum. */
  ghost predicate Tells(p: Platform, it: Item, h: Header, g: Header) {
    && Packable(p, it) && h.stamp == it.stamp && h.flags == FlagsOf(it) && h.packing == MethodOf(it)
    && h.packed == |RawOf(it)| && h.size == |it.data| && h.name == |it.nameBytes| && |h.crc| == 4 && Agreeing(h, g)
  }

  lemma HeadersTell(p: Platform, it: Item)
    requires Packable(p, it)
    ensures Tells(p, it, HeaderOf(it), LocalHeaderOf(it)) && BitString(HeaderOf(it).crc) == Crc(it.data)
  {
    FlagsAreAllowed(it);
  }

  lemma FoundCentral(p: Platform, b: Bytes, end: nat, it: Item, e: Entry, h: Header, g: Header)
    requires Tells(p, it, h, g) && CentralSays(b, e.central, h, e.offset) && Reads(b, e.central + 46, it.nameBytes)
    requires e == Found(it, e.offset, e.central) && e.centralEnd <= end <= |b|
    ensures CentralOk(p, b, end, e)
  {
    GoodNameIsSafe(it);
    FlagsAreAllowed(it);
    CentralIsOk(p, b, end, e, h, it.nameBytes);
  }

  lemma FoundLocal(p: Platform, b: Bytes, start: nat, it: Item, e: Entry, h: Header, g: Header)
    requires Tells(p, it, h, g) && CentralSays(b, e.central, h, e.offset) && LocalSays(b, e.offset, g)
    requires LocalName(b, e.offset) == CentralName(b, e.central)
    requires e == Found(it, e.offset, e.central) && e.finish <= start <= |b|
    ensures LocalOk(b, start, e.central, e.offset, e.finish)
  {
    RangeIsOk(b, start, e, h, g);
    HeaderIsSame(b, e.central, e.offset, h, g);
  }

  lemma FoundData(p: Platform, b: Bytes, it: Item, e: Entry, h: Header, g: Header)
    requires Tells(p, it, h, g) && CentralSays(b, e.central, h, e.offset) && LocalSays(b, e.offset, g)
    requires Reads(b, e.offset + 30 + |it.nameBytes|, RawOf(it)) && e == Found(it, e.offset, e.central)
    requires BitString(h.crc) == Crc(e.data)
    ensures DataOk(p, b, e.central, e.offset, e.finish, e.data)
  {
    SizesAreSame(b, e.central, e.offset, h, g);
    UnpackedIs(p, b, e, h, g, RawOf(it));
    DataIsOk(p, b, e, h, g);
  }

  lemma NamesFound(b: Bytes, o: nat, c: nat, h: Header, g: Header, name: Bytes, raw: Bytes, tail: Bytes)
    requires SmallHeader(h) && SmallHeader(g) && h.name == g.name == |name| && o < 0x1_0000_0000
    requires Stands(b, o, LocalBytes(g, name, raw, tail)) && Stands(b, c, CentralBytes(h, o, name))
    ensures o + 30 <= |b| && c + 46 <= |b| && LocalName(b, o) == name && CentralName(b, c) == name
  {
    LocalIsPlaced(b, o, g, name, raw, tail);
    CentralIsPlaced(b, c, h, o, name);
    LocalNameIs(b, o, g, name);
    CentralNameIs(b, c, h, o, name);
  }

  /** The archive holds both parts of the item, under these headers. */
  ghost predicate Holds(p: Platform, b: Bytes, it: Item, e: Entry, h: Header, g: Header, tail: Bytes) {
    && SmallHeader(h) && SmallHeader(g) && Tells(p, it, h, g) && e.offset < 0x1_0000_0000
    && e == Found(it, e.offset, e.central) && Stands(b, e.offset, LocalBytes(g, it.nameBytes, RawOf(it), tail))
    && Stands(b, e.central, CentralBytes(h, e.offset, it.nameBytes))
  }

  lemma CentralFound(p: Platform, b: Bytes, end: nat, it: Item, e: Entry, h: Header, g: Header, tail: Bytes)
    requires Holds(p, b, it, e, h, g, tail) && e.centralEnd <= end <= |b|
    ensures CentralOk(p, b, end, e)
  {
    CentralIsPlaced(b, e.central, h, e.offset, it.nameBytes);
    FoundCentral(p, b, end, it, e, h, g);
  }

  lemma LocalFound(p: Platform, b: Bytes, start: nat, it: Item, e: Entry, h: Header, g: Header, tail: Bytes)
    requires Holds(p, b, it, e, h, g, tail) && e.finish <= start <= |b|
    ensures LocalOk(b, start, e.central, e.offset, e.finish)
  {
    NamesFound(b, e.offset, e.central, h, g, it.nameBytes, RawOf(it), tail);
    LocalIsPlaced(b, e.offset, g, it.nameBytes, RawOf(it), tail);
    CentralIsPlaced(b, e.central, h, e.offset, it.nameBytes);
    FoundLocal(p, b, start, it, e, h, g);
  }

  lemma DataFound(p: Platform, b: Bytes, it: Item, e: Entry, h: Header, g: Header, tail: Bytes)
    requires Holds(p, b, it, e, h, g, tail) && BitString(h.crc) == Crc(e.data)
    ensures DataOk(p, b, e.central, e.offset, e.finish, e.data)
  {
    LocalIsPlaced(b, e.offset, g, it.nameBytes, RawOf(it), tail);
    CentralIsPlaced(b, e.central, h, e.offset, it.nameBytes);
    FoundData(p, b, it, e, h, g);
  }

  /** An item that stands in the archive is found there as it was packed. */
  lemma ItemIsFound(p: Platform, b: Bytes, start: nat, end: nat, it: Item, e: Entry)
    requires it in PackableBy(p) && e == Found(it, e.offset, e.central) && e.offset < 0x1_0000_0000
    requires Stands(b, e.offset, Local(it)) && e.offset + |Local(it)| <= start <= |b|
    requires Stands(b, e.central, Central(it, e.offset)) && e.central + |Central(it, e.offset)| <= end <= |b|
    ensures e in Good(p, b, start, end) && Shape(e, start, end)
  {
    var h, g, tail := HeaderOf(it), LocalHeaderOf(it), TailOf(it);
    SmallItemIsSmall(it);
    HeadersTell(p, it);
    LocalSize(g, it.nameBytes, RawOf(it), tail);
    CentralSize(h, e.offset, it.nameBytes);
    CentralFound(p, b, end, it, e, h, g, tail);
    LocalFound(p, b, start, it, e, h, g, tail);
    DataFound(p, b, it, e, h, g, tail);
  }

  // ----- parts one after the other -----

  function Joined(parts: seq<Bytes>): Bytes {
    if parts == [] then [] else Joined(parts[..|parts| - 1]) + parts[|parts| - 1]
  }

  lemma StandsInSuffix(before: Bytes, b: Bytes, at: nat, part: Bytes)
    requires Stands(b, at, part)
    ensures Stands(before + b, |before| + at, part)
  {
    assert (before + b)[|before| + at..|before| + at + |part|] == b[at..at + |part|];
  }

  lemma StandsInMiddle(x: Bytes, y: Bytes, z: Bytes, at: nat, part: Bytes)
    requires Stands(y, at, part)
    ensures Stands(x + y + z, |x| + at, part)
  {
    StandsInSuffix(x, y, at, part);
    StandsInPrefix(x + y, z, |x| + at, part);
  }

  lemma {:induction false} PartStands(parts: seq<Bytes>, i: nat)
    requires i < |parts|
    ensures Stands(Joined(parts), |Joined(parts[..i])|, parts[i])
  {
    var n := |parts| - 1;
    var rest := parts[..n];
    if i < n {
      PartStands(rest, i);
      assert rest[..i] == parts[..i];
      StandsInPrefix(Joined(rest), parts[n], |Joined(parts[..i])|, parts[i]);
    }
  }

  lemma JoinedGrows(parts: seq<Bytes>, i: nat)
    requires i < |parts|
    ensures |Joined(parts[..i + 1])| == |Joined(parts[..i])| + |parts[i]|
  {
    assert parts[..i + 1][..i] == parts[..i];
  }

  lemma {:induction false} JoinedGrowsTo(parts: seq<Bytes>, i: nat, j: nat)
    requires i <= j <= |parts|
    ensures |Joined(parts[..i])| <= |Joined(parts[..j])|
  {
    if i < j {
      JoinedGrowsTo(parts, i, j - 1);
      JoinedGrows(parts, j - 1);
    }
  }

  // ----- whole archives -----

  function LocalParts(items: seq<Item>): (parts: seq<Bytes>)
    ensures |parts| == |items| && forall i :: 0 <= i < |items| ==> parts[i] == Local(items[i])
  {
    seq(|items|, i requires 0 <= i < |items| => Local(items[i]))
  }

  /** Where the local part of item `i` is put. */
  function OffsetOf(items: seq<Item>, i: nat): nat
    requires i <= |items|
  {
    |Joined(LocalParts(items)[..i])|
  }

  function CentralParts(items: seq<Item>): (parts: seq<Bytes>)
    ensures |parts| == |items| && forall i :: 0 <= i < |items| ==> parts[i] == Central(items[i], OffsetOf(items, i))
  {
    seq(|items|, i requires 0 <= i < |items| => Central(items[i], OffsetOf(items, i)))
  }

  function EndOf(count: nat, size: nat, start: nat): (b: Bytes)
    ensures |b| == 22
  {
    EndFits(count, size, start);
    Layout(EndFields(count, size, start))
  }

  lemma EndFits(count: nat, size: nat, start: nat)
    ensures |Layout(EndFields(count, size, start))| == 22
  {
    var fs := EndFields(count, size, start);
    EndIndexed(count, size, start, fs);
    EndOffsets(fs);
    LayoutSize(fs);
  }

  /** Local parts, central records, end record. */
  function Assembled(locals: seq<Bytes>, centrals: seq<Bytes>): Bytes {
    Joined(locals) + Joined(centrals) + EndOf(|locals|, |Joined(centrals)|, |Joined(locals)|)
  }

  function Archive(items: seq<Item>): Bytes {
    Assembled(LocalParts(items), CentralParts(items))
  }
}
