/**
 Eviction of old log files: the eligible files of a directory are sorted by age, and the oldest
 are removed while they are expired or the rest is too large. Reading dates from names and the
 success of each removal are parameters. Times are seconds.
 */
module LogSweep {
  import opened Outcome
  import opened Ordering

  const LOG_MAX_AGE: int := 14 * 24 * 60 * 60
  const LOG_DIR_MAX_BYTES: nat := 2 * 1024 * 1024 * 1024
  const DAY: int := 24 * 60 * 60
  const PREFIX: string := "rustbinary."

  datatype DirEntry = DirEntry(name: string, regular: bool, modified: int, size: nat)
  datatype LogFile = LogFile(name: string, modified: int, size: nat)
  datatype Summary = Summary(removedFiles: nat, removedBytes: nat)

  /** `daysOld` reads how many days before today the date in a name lies, when there is one and it does. */
  datatype Clock = Clock(now: int, today: string, daysOld: string -> Option<nat>)

  predicate Contains(s: string, t: string) {
    t <= s || (s != "" && Contains(s[1..], t))
  }

  predicate Eligible(c: Clock, e: DirEntry) {
    PREFIX <= e.name && !Contains(e.name, c.today) && e.regular
  }

  /** The earlier of the time stamp and the time the name speaks of. */
  function Effective(c: Clock, e: DirEntry): int {
    match c.daysOld(e.name)
    case None => e.modified
    case Some(days) => if e.modified <= c.now - days * DAY then e.modified else c.now - days * DAY
  }

  function Collected(c: Clock, entries: seq<DirEntry>): seq<LogFile> {
    if entries == [] then []
    else
      var before, e := Collected(c, entries[..|entries| - 1]), entries[|entries| - 1];
      if Eligible(c, e) then before + [LogFile(e.name, Effective(c, e), e.size)] else before
  }

  function Older(a: LogFile, b: LogFile): bool {
    a.modified <= b.modified
  }

  function Sorted(c: Clock, entries: seq<DirEntry>): seq<LogFile> {
    SortBy(Older, Collected(c, entries))
  }

  predicate Expired(now: int, f: LogFile) {
    now - f.modified > LOG_MAX_AGE
  }

  function Bytes(files: seq<LogFile>): nat {
    if files == [] then 0 else files[0].size + Bytes(files[1..])
  }

  /** The files the loop removes, given the total of all files not removed so far. */
  function Removed(ok: LogFile -> bool, now: int, files: seq<LogFile>, total: nat): seq<LogFile> {
    if files == [] then []
    else if !Expired(now, files[0]) && total <= LOG_DIR_MAX_BYTES then Removed(ok, now, files[1..], total)
    else if ok(files[0]) then [files[0]]
      + Removed(ok, now, files[1..], if total >= files[0].size then total - files[0].size else 0)
    else Removed(ok, now, files[1..], total)
  }

  method CollectFiles(c: Clock, entries: seq<DirEntry>) returns (files: seq<LogFile>)
    ensures files == Collected(c, entries)
  {
    files := [];
    for i := 0 to |entries|
      invariant files == Collected(c, entries[..i])
    {
      assert entries[..i + 1][..i] == entries[..i];
      if !(PREFIX <= entries[i].name) || Contains(entries[i].name, c.today) { continue; }
      if !entries[i].regular { continue; }
      files := files + [LogFile(entries[i].name, Effective(c, entries[i]), entries[i].size)];
    }
    assert entries[..|entries|] == entries;
  }

  method SweepLogsDir(c: Clock, entries: seq<DirEntry>, ok: LogFile -> bool)
    returns (summary: Summary, removed: seq<LogFile>)
    ensures var files := Sorted(c, entries); removed == Removed(ok, c.now, files, Bytes(files))
    ensures summary == Summary(|removed|, Bytes(removed))
  {
    var files := CollectFiles(c, entries);
    files := SortBy(Older, files);
    var total: nat := Bytes(files);
    summary, removed := Summary(0, 0), [];
    ghost var all := Removed(ok, c.now, files, total);
    assert files[0..] == files;
    for i := 0 to |files|
      invariant removed + Removed(ok, c.now, files[i..], total) == all
      invariant summary == Summary(|removed|, Bytes(removed))
    {
      var f := files[i];
      RemovedStep(ok, c.now, files, i, total, removed);
      if !Expired(c.now, f) && total <= LOG_DIR_MAX_BYTES { continue; }
      if ok(f) {
        total := if total >= f.size then total - f.size else 0;
        BytesPush(removed, f);
        removed := removed + [f];
        summary := Summary(summary.removedFiles + 1, summary.removedBytes + f.size);
      }
    }
  }

  lemma RemovedStep(ok: LogFile -> bool, now: int, files: seq<LogFile>, i: nat, total: nat, removed: seq<LogFile>)
    requires i < |files|
    ensures var f, rest := files[i], files[i + 1..];
            removed + Removed(ok, now, files[i..], total)
            == if (Expired(now, f) || total > LOG_DIR_MAX_BYTES) && ok(f)
               then (removed + [f]) + Removed(ok, now, rest, if total >= f.size then total - f.size else 0)
               else removed + Removed(ok, now, rest, total)
  {
    assert files[i..][0] == files[i] && files[i..][1..] == files[i + 1..];
  }

  lemma {:induction false} BytesPush(files: seq<LogFile>, f: LogFile)
    ensures Bytes(files + [f]) == Bytes(files) + f.size
  {
    if files != [] {
      assert (files + [f])[1..] == files[1..] + [f];
      BytesPush(files[1..], f);
    }
  }

  // ----- every removal succeeds -----

  /** Removing the first `k` files leaves nothing expired and no more than 2 GiB. */
  predicate Enough(now: int, files: seq<LogFile>, k: nat)
    requires k <= |files|
  {
    Bytes(files[k..]) <= 0x8000_0000 && forall i :: k <= i < |files| ==> !Expired(now, files[i])
  }

  lemma SortedIsSorted(c: Clock, entries: seq<DirEntry>)
    ensures SortedBy(Older, Sorted(c, entries)) && multiset(Sorted(c, entries)) == multiset(Collected(c, entries))
  {
    SortBySorts(Older, Collected(c, entries));
  }

  /** With nothing expired and the total within the limit the loop removes nothing more. */
  lemma {:induction false} NothingMore(ok: LogFile -> bool, now: int, files: seq<LogFile>, total: nat)
    requires total <= LOG_DIR_MAX_BYTES && forall i :: 0 <= i < |files| ==> !Expired(now, files[i])
    ensures Removed(ok, now, files, total) == []
  {
    if files != [] { NothingMore(ok, now, files[1..], total); }
  }

  lemma {:induction false} ShortestFrom(ok: LogFile -> bool, now: int, files: seq<LogFile>) returns (k: nat)
    requires SortedBy(Older, files) && forall f :: ok(f)
    ensures k <= |files| && Removed(ok, now, files, Bytes(files)) == files[..k]
    ensures Enough(now, files, k) && forall j :: 0 <= j < k ==> !Enough(now, files, j)
  {
    if files == [] {
      k := 0;
    } else if !Expired(now, files[0]) && Bytes(files) <= LOG_DIR_MAX_BYTES {
      k := 0;
      forall i | 0 <= i < |files| ensures !Expired(now, files[i]) {
        if i > 0 { assert Older(files[0], files[i]); }
      }
      NothingMore(ok, now, files, Bytes(files));
      assert files[0..] == files;
    } else {
      RestSorted(files);
      k := ShortestFrom(ok, now, files[1..]);
      OneMore(now, files, k);
      assert files[..k + 1] == [files[0]] + files[1..][..k];
      k := k + 1;
    }
  }

  lemma RestSorted(files: seq<LogFile>)
    requires files != [] && SortedBy(Older, files)
    ensures SortedBy(Older, files[1..])
  {
    var rest := files[1..];
    forall i, j | 0 <= i < j < |rest| ensures Older(rest[i], rest[j]) {
      assert rest[i] == files[i + 1] && rest[j] == files[j + 1];
    }
  }

  lemma OneMore(now: int, files: seq<LogFile>, k: nat)
    requires files != [] && k <= |files[1..]| && (Expired(now, files[0]) || Bytes(files) > LOG_DIR_MAX_BYTES)
    requires Enough(now, files[1..], k) && forall j :: 0 <= j < k ==> !Enough(now, files[1..], j)
    ensures Enough(now, files, k + 1) && forall j :: 0 <= j < k + 1 ==> !Enough(now, files, j)
  {
    EnoughShift(now, files, k);
    assert files[0..] == files;
    forall j | 0 <= j < k + 1 ensures !Enough(now, files, j) {
      if j > 0 { EnoughShift(now, files, j - 1); }
    }
  }

  lemma EnoughShift(now: int, files: seq<LogFile>, j: nat)
    requires files != [] && j <= |files[1..]|
    ensures Enough(now, files[1..], j) <==> Enough(now, files, j + 1)
  {
    assert files[1..][j..] == files[j + 1..];
    if Enough(now, files[1..], j) {
      forall i | j + 1 <= i < |files| ensures !Expired(now, files[i]) { assert files[1..][i - 1] == files[i]; }
    }
    if Enough(now, files, j + 1) {
      forall i | j <= i < |files[1..]| ensures !Expired(now, files[1..][i]) { assert files[i + 1] == files[1..][i]; }
    }
  }

  /**
   The sweep removes exactly the shortest oldest-first prefix that leaves nothing expired and no more
   than the limit.
   */
  lemma RemovesShortestPrefix(c: Clock, entries: seq<DirEntry>, ok: LogFile -> bool) returns (k: nat)
    requires forall f :: ok(f)
    ensures var files := Sorted(c, entries);
            && k <= |files| && Removed(ok, c.now, files, Bytes(files)) == files[..k]
            && Enough(c.now, files, k) && (forall j :: 0 <= j < k ==> !Enough(c.now, files, j))
  {
    SortedIsSorted(c, entries);
    k := ShortestFrom(ok, c.now, Sorted(c, entries));
  }

  // ----- some removals fail -----

  /** Removed files add up with the rest, and each was removable. */
  lemma {:induction false} RemovedAddsUp(ok: LogFile -> bool, now: int, files: seq<LogFile>, total: nat)
    requires total >= Bytes(files)
    ensures Bytes(Removed(ok, now, files, total)) <= Bytes(files)
    ensures forall f :: f in Removed(ok, now, files, total) ==> f in files && ok(f)
  {
    if files != [] {
      var rest := files[1..];
      if !Expired(now, files[0]) && total <= LOG_DIR_MAX_BYTES {
        RemovedAddsUp(ok, now, rest, total);
      } else if ok(files[0]) {
        RemovedAddsUp(ok, now, rest, total - files[0].size);
        var more := Removed(ok, now, rest, total - files[0].size);
        assert ([files[0]] + more)[1..] == more;
      } else {
        RemovedAddsUp(ok, now, rest, total);
      }
    }
  }

  /** What survives: an expired file only if it could not be removed, and over the limit no file that could be. */
  lemma {:induction false} SurvivorsAreJustified(ok: LogFile -> bool, now: int, files: seq<LogFile>, total: nat, i: nat)
    requires total >= Bytes(files) && i < |files| && ok(files[i])
    ensures var removed := Removed(ok, now, files, total);
            Expired(now, files[i]) || total - Bytes(removed) > LOG_DIR_MAX_BYTES ==> files[i] in removed
  {
    var rest := files[1..];
    RemovedAddsUp(ok, now, files, total);
    if !Expired(now, files[0]) && total <= LOG_DIR_MAX_BYTES {
      if i > 0 { SurvivorsAreJustified(ok, now, rest, total, i - 1); }
    } else if ok(files[0]) {
      var more := Removed(ok, now, rest, total - files[0].size);
      assert ([files[0]] + more)[1..] == more;
      if i > 0 { SurvivorsAreJustified(ok, now, rest, total - files[0].size, i - 1); }
    } else if i > 0 {
      SurvivorsAreJustified(ok, now, rest, total, i - 1);
    }
  }

  // ----- which files may go at all -----

  ghost predicate OccursAt(s: string, t: string, k: nat) {
    k + |t| <= |s| && s[k..k + |t|] == t
  }

  lemma OccursInRest(s: string, t: string, k: nat)
    requires s != ""
    ensures OccursAt(s, t, k + 1) <==> OccursAt(s[1..], t, k)
  {
    if k + 1 + |t| <= |s| { assert s[1..][k..k + |t|] == s[k + 1..k + 1 + |t|]; }
  }

  lemma {:induction false} ContainsIs(s: string, t: string)
    ensures Contains(s, t) <==> exists k: nat :: OccursAt(s, t, k)
  {
    if t <= s {
      assert OccursAt(s, t, 0);
    } else if s != "" {
      ContainsIs(s[1..], t);
      if k: nat :| OccursAt(s[1..], t, k) { OccursInRest(s, t, k); }
      if k: nat :| OccursAt(s, t, k) {
        assert k > 0;
        OccursInRest(s, t, k - 1);
      }
    }
  }

  /** A regular file of the log's own naming, with today's date nowhere in its name. */
  ghost predicate MayGo(c: Clock, e: DirEntry) {
    && e.regular && OccursAt(e.name, "rustbinary.", 0)
    && forall k: nat :: !OccursAt(e.name, c.today, k)
  }

  /** As old as its time stamp and the date in its name say, whichever is earlier. */
  predicate IsAgeOf(c: Clock, e: DirEntry, time: int) {
    var dated := c.daysOld(e.name);
    && time <= e.modified && (dated.Some? ==> time <= c.now - dated.value * DAY)
    && (time == e.modified || (dated.Some? && time == c.now - dated.value * DAY))
  }

  ghost predicate Stands(c: Clock, e: DirEntry, f: LogFile) {
    MayGo(c, e) && f.name == e.name && f.size == e.size && IsAgeOf(c, e, f.modified)
  }

  lemma EligibleIs(c: Clock, e: DirEntry, f: LogFile)
    ensures Stands(c, e, f) <==> Eligible(c, e) && f == LogFile(e.name, Effective(c, e), e.size)
  {
    ContainsIs(e.name, c.today);
  }

  lemma {:induction false} CollectedIs(c: Clock, entries: seq<DirEntry>, f: LogFile)
    ensures f in Collected(c, entries) <==> exists i :: 0 <= i < |entries| && Stands(c, entries[i], f)
  {
    if entries != [] {
      var init, e := entries[..|entries| - 1], entries[|entries| - 1];
      CollectedIs(c, init, f);
      EligibleIs(c, e, f);
      if i :| 0 <= i < |init| && Stands(c, init[i], f) { assert entries[i] == init[i]; }
      if i :| 0 <= i < |entries| && Stands(c, entries[i], f) && i < |init| { assert entries[i] == init[i]; }
    }
  }

  /** Whatever is too old or too much, only files that may go are removed: today's and foreign files stay. */
  lemma OnlyEligibleRemoved(c: Clock, entries: seq<DirEntry>, ok: LogFile -> bool, f: LogFile)
    requires var files := Sorted(c, entries); f in Removed(ok, c.now, files, Bytes(files))
    ensures exists i :: 0 <= i < |entries| && Stands(c, entries[i], f)
  {
    var files := Sorted(c, entries);
    RemovedAddsUp(ok, c.now, files, Bytes(files));
    InSameMultiset(files, Collected(c, entries), f);
    CollectedIs(c, entries, f);
  }

  /** And of those, every expired file that can be removed is. */
  lemma ExpiredIsRemoved(c: Clock, entries: seq<DirEntry>, ok: LogFile -> bool, i: nat, f: LogFile)
    requires i < |entries| && Stands(c, entries[i], f) && ok(f) && c.now - f.modified > 14 * 24 * 60 * 60
    ensures var files := Sorted(c, entries); f in Removed(ok, c.now, files, Bytes(files))
  {
    var files := Sorted(c, entries);
    CollectedIs(c, entries, f);
    InSameMultiset(files, Collected(c, entries), f);
    var j :| 0 <= j < |files| && files[j] == f;
    SurvivorsAreJustified(ok, c.now, files, Bytes(files), j);
  }
}
