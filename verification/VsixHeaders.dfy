/**
 What an accepted entry says of the bytes: the two records of a file carry their signatures and
 agree byte for byte in all they both state, nothing is encrypted, and a stored file lies in the
 archive as it is.
 */
module VsixHeaders {
  import opened Outcome
  import opened Crc32
  import opened VsixArchive

  lemma SameU16(b: Bytes, i: nat, j: nat)
    requires i + 2 <= |b| && j + 2 <= |b| && U16(b, i) == U16(b, j)
    ensures b[i] == b[j] && b[i + 1] == b[j + 1]
  {
  }

  lemma SameU32(b: Bytes, i: nat, j: nat)
    requires i + 4 <= |b| && j + 4 <= |b| && U32(b, i) == U32(b, j)
    ensures b[i..i + 4] == b[j..j + 4]
  {
    SameHalves(U16(b, i), U16(b, i + 2), U16(b, j), U16(b, j + 2));
    SameU16(b, i, j);
    SameU16(b, i + 2, j + 2);
    var x, y := b[i..i + 4], b[j..j + 4];
    assert x == [b[i], b[i + 1], b[i + 2], b[i + 3]] && y == [b[j], b[j + 1], b[j + 2], b[j + 3]];
  }

  lemma SameHalves(low: nat, high: nat, low': nat, high': nat)
    requires low < 0x1_0000 && low' < 0x1_0000 && low + 0x1_0000 * high == low' + 0x1_0000 * high'
    ensures low == low' && high == high'
  {
  }

  lemma SignatureIs(b: Bytes, i: nat, x: byte, y: byte)
    requires i + 4 <= |b| && U32(b, i) == 0x4b50 + 0x1_0000 * x as nat + 0x100_0000 * y as nat
    ensures b[i..i + 4] == [0x50, 0x4b, x, y]
  {
    assert U16(b, i) == 0x4b50 && U16(b, i + 2) == x as nat + 0x100 * y as nat;
  }

  /** Name, flags and method stand in both records alike. */
  ghost predicate HeadersAgree(b: Bytes, central: nat, offset: nat) {
    && central + 46 <= |b| && offset + 30 <= |b|
    && b[offset + 6..offset + 10] == b[central + 8..central + 12]
    && b[offset + 26..offset + 28] == b[central + 28..central + 30]
    && var n := b[central + 28] as nat + 0x100 * b[central + 29] as nat;
    && offset + 30 + n <= |b| && central + 46 + n <= |b|
    && b[offset + 30..offset + 30 + n] == b[central + 46..central + 46 + n]
  }

  lemma SameHeadersAgree(b: Bytes, central: nat, offset: nat)
    requires SameHeader(b, central, offset)
    requires central + 46 + U16(b, central + 28) <= |b| && offset + 30 + U16(b, offset + 26) <= |b|
    ensures HeadersAgree(b, central, offset)
  {
    assert |LocalName(b, offset)| == U16(b, offset + 26) && |CentralName(b, central)| == U16(b, central + 28);
    SameU16(b, offset + 26, central + 28);
    SameU16(b, offset + 8, central + 10);
    SameU16(b, offset + 6, central + 8);
  }

  /** Stored or deflated, on the one disk, not encrypted, and not a symbolic link. */
  predicate IsPlain(b: Bytes, central: nat) {
    && central + 46 <= |b|
    && b[central + 8] % 2 == 0 && b[central + 10] in {0, 8} && b[central + 11] == 0
    && b[central + 34] == 0 && b[central + 35] == 0 && b[central + 41] / 16 != 10
  }

  lemma PlainRecordIs(b: Bytes, central: nat)
    requires central + 46 <= |b| && PlainRecord(b, central)
    ensures IsPlain(b, central)
  {
    var low := U16(b, central + 38);
    assert U32(b, central + 38) == low + 0x1_0000 * b[central + 40] as nat + 0x100_0000 * b[central + 41] as nat;
  }

  /** Without the descriptor's bit, checksum and sizes stand in both records alike. */
  ghost predicate SizesAgree(b: Bytes, central: nat, offset: nat) {
    && central + 46 <= |b| && offset + 30 <= |b|
    && (b[central + 8] / 8 % 2 == 0 ==> b[offset + 14..offset + 26] == b[central + 16..central + 28])
  }

  lemma SizesAre(b: Bytes, central: nat, offset: nat)
    requires central + 46 <= |b| && offset + 30 <= |b| && SameSizes(b, central, offset)
    ensures SizesAgree(b, central, offset)
  {
    if b[central + 8] / 8 % 2 == 0 {
      assert !HasDescriptor(U16(b, central + 8));
      SameU32(b, offset + 14, central + 16);
      SameU32(b, offset + 18, central + 20);
      SameU32(b, offset + 22, central + 24);
      SlicesJoin(b, offset + 14, central + 16);
    }
  }

  lemma SlicesJoin<T>(b: seq<T>, i: nat, j: nat)
    requires i + 12 <= |b| && j + 12 <= |b| && b[i..i + 4] == b[j..j + 4] && b[i + 4..i + 8] == b[j + 4..j + 8]
    requires b[i + 8..i + 12] == b[j + 8..j + 12]
    ensures b[i..i + 12] == b[j..j + 12]
  {
    assert b[i..i + 12] == b[i..i + 4] + b[i + 4..i + 8] + b[i + 8..i + 12];
    assert b[j..j + 12] == b[j..j + 4] + b[j + 4..j + 8] + b[j + 8..j + 12];
  }

  /** A stored file is the bytes before the end of its range; any file has the recorded size. */
  ghost predicate IsData(b: Bytes, central: nat, finish: nat, data: Bytes) {
    && central + 46 <= |b|
    && (b[central + 10] == 0 && b[central + 11] == 0 ==> |data| <= finish <= |b| && b[finish - |data|..finish] == data)
    && |data| == b[central + 24] as nat + 0x100 * b[central + 25] as nat + 0x1_0000 * b[central + 26] as nat
                 + 0x100_0000 * b[central + 27] as nat
  }

  lemma DataIs(p: Platform, b: Bytes, central: nat, offset: nat, finish: nat, data: Bytes)
    requires DataOk(p, b, central, offset, finish, data) && finish <= |b|
    requires offset + 30 + U16(b, offset + 26) + U16(b, offset + 28) <= finish
    ensures IsData(b, central, finish, data)
  {
    var at := offset + 30 + U16(b, offset + 26) + U16(b, offset + 28);
    assert Sub(b, at, finish) == b[at..finish];
  }

  /** The bytes of an accepted entry, with no read of the verifier's own. */
  lemma AcceptedIsConsistent(p: Platform, b: Bytes, start: nat, end: nat, e: Entry)
    requires EntryOk(p, b, start, end, e)
    ensures e.central + 46 <= |b| && e.offset + 30 <= |b|
    ensures b[e.central..e.central + 4] == [0x50, 0x4b, 1, 2] && b[e.offset..e.offset + 4] == [0x50, 0x4b, 3, 4]
    ensures HeadersAgree(b, e.central, e.offset) && IsPlain(b, e.central) && SizesAgree(b, e.central, e.offset)
    ensures IsData(b, e.central, e.finish, e.data)
  {
    SignatureIs(b, e.central, 1, 2);
    SignatureIs(b, e.offset, 3, 4);
    SameHeadersAgree(b, e.central, e.offset);
    PlainRecordIs(b, e.central);
    SizesAre(b, e.central, e.offset);
    DataIs(p, b, e.central, e.offset, e.finish, e.data);
  }

  /** The end record: its signature, one disk, the number of entries twice, and a comment up to the last byte. */
  ghost predicate EndsArchive(b: Bytes, end: nat, count: nat) {
    && end + 22 <= |b| && b[end..end + 4] == [0x50, 0x4b, 5, 6]
    && b[end + 4] == 0 && b[end + 5] == 0 && b[end + 6] == 0 && b[end + 7] == 0
    && b[end + 8] == b[end + 10] && b[end + 9] == b[end + 11]
    && b[end + 8] as nat + 0x100 * b[end + 9] as nat == count
    && end + 22 + b[end + 20] as nat + 0x100 * b[end + 21] as nat == |b|
  }

  lemma EndRecordIs(b: Bytes, start: nat, end: nat, count: nat)
    requires IsEndRecord(b, start, end, count)
    ensures EndsArchive(b, end, count)
  {
    SignatureIs(b, end, 5, 6);
    SameU16(b, end + 8, end + 10);
  }

  /** What is accepted keeps to the limits, ends as it should, and is consistent entry by entry. */
  lemma AcceptedArchive(p: Platform, b: Bytes, request: Request, start: nat, end: nat, es: seq<Entry>, i: nat)
    requires Accepted(p, b, request, start, end, es) && i < |es|
    ensures |b| <= 0x1000_0000 && |es| <= 20000 && TotalSize(es) <= 0x2000_0000 && |es[i].data| <= 0x800_0000
    ensures EndsArchive(b, end, |es|)
    ensures HeadersAgree(b, es[i].central, es[i].offset) && IsPlain(b, es[i].central)
    ensures SizesAgree(b, es[i].central, es[i].offset) && IsData(b, es[i].central, es[i].finish, es[i].data)
  {
    EndRecordIs(b, start, end, |es|);
    assert es[i] in Good(p, b, start, end);
    AcceptedIsConsistent(p, b, start, end, es[i]);
  }
}
