/**
 Native release claims: before an installation is attempted a claim for its prepared hash is made
 durable in a ledger directory that any number of host processes share. Every file operation is
 one step, runs interleave freely, a run may fail or its process may die at any step, and the
 machine may lose power, which loses whatever was not flushed.
 */
module ReleaseClaims {
  import opened Ordering

  type Hash = string
  type RunId = nat

  datatype Key = Key(preparedHash: Hash, grantId: string, projectId: string, hostSessionId: string)

  datatype Status = Declined | InstallerReturned | OutcomeUnknown

  /** What a ledger file holds: a whole claim, or the remains of one that was never finished. */
  datatype Content = Torn | Claim(key: Key, artifactDigest: string, status: Status)

  const LEDGER_LIMIT: nat := 128

  // ----- keys -----

  predicate IsOpaqueId(s: string) {
    1 <= |s| <= 128 && forall i :: 0 <= i < |s| ==>
      || 'A' <= s[i] <= 'Z' || 'a' <= s[i] <= 'z' || '0' <= s[i] <= '9'
      || s[i] == '_' || s[i] == '.' || s[i] == ':' || s[i] == '-'
  }

  predicate ValidKey(k: Key) {
    IsDigest(k.preparedHash) && IsOpaqueId(k.grantId) && IsOpaqueId(k.projectId) && IsOpaqueId(k.hostSessionId)
  }

  // ----- the protocol -----

  datatype Pc =
    | Checking          // `claims()` must not list the hash
    | Preparing         // fetch, verify, compare manifests, ask the user, stage
    | WantLock          // create the lock file exclusively
    | Looking           // holds the lock: is there already a file for this hash?
    | Counting          // list the whole ledger
    | Opening           // create the claim file exclusively
    | Writing
    | Flushing          // flush the file
    | FlushingDir       // flush the directory
    | Unlocking
    | Claimed           // the claim is durable: the effect may be dispatched
    | Dispatched        // the installer was called
    | SaveFlushing      // the outcome was renamed over the claim: flush the directory
    | Ended

  datatype Run = Run(key: Key, artifactDigest: string, consent: bool, returned: bool, pc: Pc)

  datatype Lock = Free | Held(holder: RunId) | Stale

  /**
   `view` is the ledger directory as every process sees it, `disk` what would survive a power
   failure for certain, `flushed` the hashes whose present content is on disk. `installs` records
   every effect dispatched so far.
   */
  datatype State = State(
    view: map<Hash, Content>, disk: map<Hash, Content>, flushed: set<Hash>, lock: Lock,
    runs: map<RunId, Run>, installs: seq<Hash>)

  datatype Step =
    | Start(r: RunId, key: Key)
    | Check(r: RunId)
    | Prepare(r: RunId, artifactDigest: string, consent: bool)
    | TakeLock(r: RunId)
    | Look(r: RunId)
    | Count(r: RunId)
    | Open(r: RunId)
    | Write(r: RunId)
    | Flush(r: RunId)
    | FlushDir(r: RunId)
    | Unlock(r: RunId)
    | Install(r: RunId, effect: bool, returned: bool)
    | Save(r: RunId)
    | SaveFlush(r: RunId)
    | Fail(r: RunId)
    | Crash(r: RunId)
    | PowerFailure(view: map<Hash, Content>, lock: Lock)

  function Goto(s: State, r: RunId, pc: Pc): State
    requires r in s.runs
  {
    s.(runs := s.runs[r := s.runs[r].(pc := pc)])
  }

  function HashOf(s: State, r: RunId): Hash
    requires r in s.runs
  {
    s.runs[r].key.preparedHash
  }

  /** `list()` returns normally: no unfinished file, not over the limit. */
  predicate Listable(view: map<Hash, Content>) {
    |view| <= LEDGER_LIMIT && forall h :: h in view ==> !view[h].Torn?
  }

  function ClaimOf(run: Run, status: Status): Content {
    Claim(run.key, run.artifactDigest, status)
  }

  function FirstStatus(run: Run): Status {
    if run.consent then OutcomeUnknown else Declined
  }

  /** Flushing the directory makes every entry durable, but only flushed contents with it; on Windows it is skipped. */
  function SyncDirectory(win: bool, s: State): State {
    if win then s else s.(disk := map h | h in s.view :: if h in s.flushed then s.view[h] else Torn)
  }

  predicate HoldsLock(pc: Pc) {
    pc.Looking? || pc.Counting? || pc.Opening? || pc.Writing? || pc.Flushing? || pc.FlushingDir? || pc.Unlocking?
  }

  /** What may be found after power returns: durable entries for certain, the rest in any condition. */
  ghost predicate Survives(s: State, view': map<Hash, Content>) {
    && s.disk.Keys <= view'.Keys <= s.view.Keys
    && (forall h :: h in view' && h in s.disk ==> view'[h] == s.disk[h] || view'[h] == s.view[h])
    && (forall h :: h in view' && h !in s.disk ==> view'[h] == s.view[h] || view'[h].Torn?)
  }

  ghost predicate At(s: State, r: RunId, pc: Pc) {
    r in s.runs && s.runs[r].pc == pc
  }

  /** The claim file is made, still empty. */
  function AfterOpen(s: State, r: RunId): State
    requires r in s.runs
  {
    Goto(s.(view := s.view[HashOf(s, r) := Torn], flushed := s.flushed - {HashOf(s, r)}), r, Writing)
  }

  function AfterWrite(s: State, r: RunId): State
    requires r in s.runs
  {
    Goto(s.(view := s.view[HashOf(s, r) := ClaimOf(s.runs[r], FirstStatus(s.runs[r]))]), r, Flushing)
  }

  function AfterFlush(s: State, r: RunId): State
    requires r in s.runs
  {
    Goto(s.(flushed := s.flushed + {HashOf(s, r)}), r, FlushingDir)
  }

  function AfterInstall(s: State, r: RunId, effect: bool, returned: bool): State
    requires r in s.runs
  {
    s.(runs := s.runs[r := s.runs[r].(returned := returned, pc := Dispatched)],
       installs := s.installs + if effect then [HashOf(s, r)] else [])
  }

  function AfterSave(s: State, r: RunId): State
    requires r in s.runs
  {
    Goto(s.(view := s.view[HashOf(s, r) :=
                             ClaimOf(s.runs[r], if s.runs[r].returned then InstallerReturned else OutcomeUnknown)]),
         r, SaveFlushing)
  }

  function AfterSync(win: bool, s: State, r: RunId, pc: Pc): State
    requires r in s.runs
  {
    Goto(SyncDirectory(win, s), r, pc)
  }

  function AfterPowerFailure(s: State, view': map<Hash, Content>, lock': Lock): State {
    s.(view := view', disk := view', flushed := view'.Keys, lock := lock',
       runs := map r | r in s.runs :: s.runs[r].(pc := Ended))
  }

  /** Run `r` changes only itself, and the lock. */
  function Quiet(s: State, r: RunId, run: Run, lock: Lock): State {
    s.(runs := s.runs[r := run], lock := lock)
  }

  /** The state after run `r` went to `pc` under the lock, or gave the lock up on its way there. */
  function Under(s: State, r: RunId, pc: Pc): State
    requires r in s.runs
  {
    Quiet(s, r, s.runs[r].(pc := pc), if HoldsLock(pc) then s.lock else Free)
  }

  ghost predicate Next(win: bool, s: State, step: Step, s': State) {
    match step
    case Start(r, key) => r !in s.runs && ValidKey(key)
      && s' == Quiet(s, r, Run(key, "", false, false, Checking), s.lock)
    case Check(r) =>
      At(s, r, Checking)
      && s' == Quiet(s, r, s.runs[r].(pc := if Listable(s.view) && HashOf(s, r) !in s.view then Preparing else Ended),
         s.lock)
    case Prepare(r, digest, consent) =>
      At(s, r, Preparing)
      && s' == Quiet(s, r, s.runs[r].(artifactDigest := digest, consent := consent, pc := WantLock), s.lock)
    case TakeLock(r) =>
      At(s, r, WantLock)
      && s' == if s.lock.Free? then Quiet(s, r, s.runs[r].(pc := Looking), Held(r))
         else Quiet(s, r, s.runs[r].(pc := Ended), s.lock)
    case Look(r) => At(s, r, Looking) && s' == Under(s, r, if HashOf(s, r) in s.view then Ended else Counting)
    case Count(r) =>
      At(s, r, Counting) && s' == Under(s, r, if Listable(s.view) && |s.view| < LEDGER_LIMIT then Opening else Ended)
    case Open(r) => At(s, r, Opening) && s' == if HashOf(s, r) in s.view then Under(s, r, Ended) else AfterOpen(s, r)
    case Write(r) => At(s, r, Writing) && s' == AfterWrite(s, r)
    case Flush(r) => At(s, r, Flushing) && s' == AfterFlush(s, r)
    case FlushDir(r) => At(s, r, FlushingDir) && s' == AfterSync(win, s, r, Unlocking)
    case Unlock(r) => At(s, r, Unlocking) && s' == Under(s, r, if s.runs[r].consent then Claimed else Ended)
    case Install(r, effect, returned) =>
      // a rejection does not prove there was no effect, a normal return does prove one
      At(s, r, Claimed) && (returned ==> effect) && s' == AfterInstall(s, r, effect, returned)
    case Save(r) =>
      // the replacement is written and flushed elsewhere, then renamed over the claim
      At(s, r, Dispatched) && s' == AfterSave(s, r)
    case SaveFlush(r) => At(s, r, SaveFlushing) && s' == AfterSync(win, s, r, Ended)
    case Fail(r) =>
      // any operation throws; the lock is removed on the way out
      r in s.runs && s' == Quiet(s, r, s.runs[r].(pc := Ended), if HoldsLock(s.runs[r].pc) then Free else s.lock)
    case Crash(r) =>
      r in s.runs && s' == Quiet(s, r, s.runs[r].(pc := Ended), if HoldsLock(s.runs[r].pc) then Stale else s.lock)
    case PowerFailure(view', lock') =>
      Survives(s, view') && !lock'.Held? && s' == AfterPowerFailure(s, view', lock')
  }

  /** The ledger directory has just been made. */
  ghost predicate Init(s: State) {
    s == State(map[], map[], {}, Free, map[], [])
  }

  ghost predicate StepAt(win: bool, states: seq<State>, steps: seq<Step>, i: nat)
    requires |states| == |steps| + 1 && i < |steps|
  {
    Next(win, states[i], steps[i], states[i + 1])
  }

  ghost predicate IsRun(win: bool, states: seq<State>, steps: seq<Step>) {
    && |states| == |steps| + 1 && Init(states[0])
    && forall i :: 0 <= i < |steps| ==> StepAt(win, states, steps, i)
  }

  // ----- the invariant -----

  /** What can be relied on: flushed directories, or no power failure yet, or neither. */
  datatype Mode = Posix | WindowsCalm | WindowsLossy

  predicate OnWindows(mode: Mode) {
    !mode.Posix?
  }

  /** Effects and claims agree: everywhere but on Windows after a power failure. */
  predicate Solid(mode: Mode) {
    !mode.WindowsLossy?
  }

  /** The run has created the file for its hash. */
  predicate Created(pc: Pc) {
    pc.Writing? || pc.Flushing? || pc.FlushingDir? || pc.Unlocking? || pc.Claimed? || pc.Dispatched? || pc.SaveFlushing?
  }

  /** ... and has not called the installer yet. */
  predicate BeforeEffect(pc: Pc) {
    Created(pc) && !pc.Dispatched? && !pc.SaveFlushing?
  }

  /** A claim under which an effect may have happened. */
  predicate Effective(c: Content) {
    c.Claim? && !c.status.Declined?
  }

  ghost predicate RunOk(mode: Mode, s: State, r: RunId)
    requires r in s.runs
  {
    var run, h := s.runs[r], s.runs[r].key.preparedHash;
    && (HoldsLock(run.pc) ==> s.lock == Held(r))
    && (run.pc.Opening? ==> |s.view| < LEDGER_LIMIT)
    && (Created(run.pc) ==> h in s.view)
    && (run.pc.Writing? ==> s.view[h].Torn?)
    && (Solid(mode) && BeforeEffect(run.pc) ==> h !in s.installs)
    && (Created(run.pc) && !run.pc.Writing? && BeforeEffect(run.pc) ==> s.view[h] == ClaimOf(run, FirstStatus(run)))
    && (Created(run.pc) && !run.pc.Writing? && !run.pc.Flushing? ==> h in s.flushed)
    && (mode.Posix? && (run.pc.Unlocking? || run.pc.Claimed?) ==> h in s.disk && s.disk[h] == s.view[h])
    && (run.pc.Claimed? ==> run.consent)
    && (run.pc.Dispatched? || run.pc.SaveFlushing? ==> Effective(s.view[h]) && (run.returned ==> h in s.installs))
    && (mode.Posix? && (run.pc.Dispatched? || run.pc.SaveFlushing?) ==> h in s.disk && Effective(s.disk[h]))
  }

  /** No two live runs created the file for the same hash. */
  ghost predicate OneCreator(s: State) {
    forall r, q :: r in s.runs && q in s.runs && r != q && Created(s.runs[r].pc) && Created(s.runs[q].pc) ==>
      s.runs[r].key.preparedHash != s.runs[q].key.preparedHash
  }

  ghost predicate InstallsOk(mode: Mode, s: State) {
    && (Solid(mode) ==> NoDup(s.installs))
    && (Solid(mode) ==> forall h :: h in s.installs ==> h in s.view && h in s.flushed && Effective(s.view[h]))
    && (mode.Posix? ==> forall h :: h in s.installs ==> h in s.disk && Effective(s.disk[h]))
    && (forall h :: h in s.view && s.view[h].Claim? && s.view[h].status.InstallerReturned? ==> h in s.installs)
    && (forall h :: h in s.disk && s.disk[h].Claim? && s.disk[h].status.InstallerReturned? ==> h in s.installs)
  }

  ghost predicate Inv(mode: Mode, s: State) {
    && s.disk.Keys <= s.view.Keys && |s.view| <= LEDGER_LIMIT
    && InstallsOk(mode, s) && OneCreator(s)
    && (forall r :: r in s.runs ==> RunOk(mode, s, r))
    && (s.lock.Held? ==> s.lock.holder in s.runs && HoldsLock(s.runs[s.lock.holder].pc))
  }

  // ----- each step keeps it -----

  /** Run `r` may change the lock from what it is to `lock`, given where it goes. */
  predicate LockMoves(s: State, r: RunId, pc: Pc, lock: Lock) {
    && (lock == s.lock || s.lock == Held(r) || (s.lock.Free? && lock == Held(r)))
    && (lock == Held(r) <==> HoldsLock(pc))
    && (lock.Held? && lock.holder != r ==> lock == s.lock)
  }

  /** Every other run is unaffected when a run changes only itself and its lock. */
  lemma QuietKeepsOthers(mode: Mode, s: State, r: RunId, run: Run, lock: Lock, q: RunId)
    requires q in s.runs && q != r && RunOk(mode, s, q) && LockMoves(s, r, run.pc, lock)
    ensures RunOk(mode, Quiet(s, r, run, lock), q)
  {
  }

  /** A step of run `r` that touches neither the ledger nor the effects, to where it has no file of its own. */
  lemma IdleKeepsInv(mode: Mode, s: State, r: RunId, run: Run, lock: Lock)
    requires Inv(mode, s) && !Created(run.pc) && LockMoves(s, r, run.pc, lock)
             && (run.pc.Opening? ==> |s.view| < LEDGER_LIMIT)
    ensures Inv(mode, Quiet(s, r, run, lock))
  {
    var s' := Quiet(s, r, run, lock);
    forall q | q in s'.runs ensures RunOk(mode, s', q) {
      if q != r { QuietKeepsOthers(mode, s, r, run, lock, q); }
    }
  }

  /** The claim is made and the lock given back. */
  lemma ClaimedKeepsInv(mode: Mode, s: State, r: RunId)
    requires Inv(mode, s) && At(s, r, Unlocking) && s.runs[r].consent
    ensures Inv(mode, Quiet(s, r, s.runs[r].(pc := Claimed), Free))
  {
    var run := s.runs[r].(pc := Claimed);
    var s' := Quiet(s, r, run, Free);
    assert RunOk(mode, s, r);
    forall q | q in s'.runs ensures RunOk(mode, s', q) {
      if q != r { QuietKeepsOthers(mode, s, r, run, Free, q); }
    }
  }

  /** Changing the file of the one run that created it, other hashes untouched. */
  lemma OwnFileKeepsOthers(mode: Mode, s: State, s': State, r: RunId, run: Run, q: RunId)
    requires r in s.runs && q in s.runs && RunOk(mode, s, q) && RunOk(mode, s, r) && s'.runs == s.runs[r := run]
             && q != r
    requires s'.lock == s.lock
    requires forall h :: h != HashOf(s, r) ==>
               && (h in s.view <==> h in s'.view) && (h in s.view ==> s'.view[h] == s.view[h])
               && (h in s.disk <==> h in s'.disk) && (h in s.disk ==> s'.disk[h] == s.disk[h])
               && (h in s.flushed <==> h in s'.flushed) && (h in s.installs <==> h in s'.installs)
    requires HashOf(s, q) != HashOf(s, r) || !Created(s.runs[q].pc)
    requires HoldsLock(s.runs[r].pc) || |s'.view| == |s.view|
    ensures RunOk(mode, s', q)
  {
  }

  lemma OpenKeepsInv(mode: Mode, s: State, r: RunId)
    requires Inv(mode, s) && At(s, r, Opening) && HashOf(s, r) !in s.view
    ensures Inv(mode, AfterOpen(s, r))
  {
    var h, s' := HashOf(s, r), AfterOpen(s, r);
    SizeAfterInsert(s.view, h, Torn);
    assert RunOk(mode, s, r);
    forall q | q in s.runs && q != r ensures RunOk(mode, s', q) && !(Created(s.runs[q].pc) && HashOf(s, q) == h) {
      assert RunOk(mode, s, q);
      OwnFileKeepsOthers(mode, s, s', r, s.runs[r].(pc := Writing), q);
    }
    OpenKeepsInstalls(mode, s, r);
  }

  lemma OpenKeepsInstalls(mode: Mode, s: State, r: RunId)
    requires InstallsOk(mode, s) && At(s, r, Opening) && HashOf(s, r) !in s.view && RunOk(mode, s, r)
             && s.disk.Keys <= s.view.Keys
    ensures InstallsOk(mode, AfterOpen(s, r)) && RunOk(mode, AfterOpen(s, r), r)
  {
  }

  lemma WriteKeepsInv(mode: Mode, s: State, r: RunId)
    requires Inv(mode, s) && At(s, r, Writing)
    ensures Inv(mode, AfterWrite(s, r))
  {
    var h, s' := HashOf(s, r), AfterWrite(s, r);
    assert RunOk(mode, s, r);
    SizeAfterInsert(s.view, h, s'.view[h]);
    forall q | q in s.runs && q != r ensures RunOk(mode, s', q) {
      assert RunOk(mode, s, q);
      OwnFileKeepsOthers(mode, s, s', r, s.runs[r].(pc := Flushing), q);
    }
    WriteKeepsInstalls(mode, s, r);
  }

  lemma WriteKeepsInstalls(mode: Mode, s: State, r: RunId)
    requires InstallsOk(mode, s) && At(s, r, Writing) && RunOk(mode, s, r)
    ensures InstallsOk(mode, AfterWrite(s, r)) && RunOk(mode, AfterWrite(s, r), r)
  {
  }

  lemma FlushKeepsInv(mode: Mode, s: State, r: RunId)
    requires Inv(mode, s) && At(s, r, Flushing)
    ensures Inv(mode, AfterFlush(s, r))
  {
    var s' := AfterFlush(s, r);
    assert RunOk(mode, s, r);
    forall q | q in s.runs && q != r ensures RunOk(mode, s', q) {
      assert RunOk(mode, s, q);
      OwnFileKeepsOthers(mode, s, s', r, s.runs[r].(pc := FlushingDir), q);
    }
    assert RunOk(mode, s', r);
  }

  /** Flushing the directory keeps every installed claim and every finished claim as it is seen. */
  lemma SyncKeepsInv(mode: Mode, s: State, r: RunId, pc: Pc)
    requires Inv(mode, s) && r in s.runs
    requires (s.runs[r].pc.FlushingDir? && pc.Unlocking?) || (s.runs[r].pc.SaveFlushing? && pc.Ended?)
    ensures Inv(mode, AfterSync(OnWindows(mode), s, r, pc))
  {
    var s' := AfterSync(OnWindows(mode), s, r, pc);
    SyncKeepsInstalls(mode, s);
    forall q | q in s'.runs ensures RunOk(mode, s', q) {
      assert RunOk(mode, s, q);
      SyncKeepsRun(mode, s, r, pc, q);
    }
  }

  lemma SyncKeepsInstalls(mode: Mode, s: State)
    requires InstallsOk(mode, s) && s.disk.Keys <= s.view.Keys
    ensures var d := SyncDirectory(OnWindows(mode), s); InstallsOk(mode, d) && d.disk.Keys <= d.view.Keys
  {
  }

  /** After the flush the run's own file is on disk as it is seen. */
  lemma SyncKeepsRun(mode: Mode, s: State, r: RunId, pc: Pc, q: RunId)
    requires r in s.runs && q in s.runs && RunOk(mode, s, q)
    requires (s.runs[r].pc.FlushingDir? && pc.Unlocking?) || (s.runs[r].pc.SaveFlushing? && pc.Ended?)
    ensures RunOk(mode, AfterSync(OnWindows(mode), s, r, pc), q)
  {
  }

  lemma InstallRecorded(mode: Mode, s: State, r: RunId, s': State)
    requires InstallsOk(mode, s) && r in s.runs && RunOk(mode, s, r) && s.runs[r].pc.Claimed?
    requires s'.view == s.view && s'.disk == s.disk && s'.flushed == s.flushed
    requires s'.installs == s.installs || s'.installs == s.installs + [HashOf(s, r)]
    ensures InstallsOk(mode, s')
  {
    var h := HashOf(s, r);
    assert Effective(s.view[h]) && (mode.Posix? ==> Effective(s.disk[h])) && (Solid(mode) ==> h !in s.installs);
  }

  lemma InstallKeepsInv(mode: Mode, s: State, r: RunId, effect: bool, returned: bool)
    requires Inv(mode, s) && At(s, r, Claimed) && (returned ==> effect)
    ensures Inv(mode, AfterInstall(s, r, effect, returned))
  {
    var s' := AfterInstall(s, r, effect, returned);
    assert RunOk(mode, s, r);
    assert s.installs + [] == s.installs;
    InstallRecorded(mode, s, r, s');
    forall q | q in s.runs && q != r ensures RunOk(mode, s', q) {
      assert RunOk(mode, s, q);
      OwnFileKeepsOthers(mode, s, s', r, s.runs[r].(returned := returned, pc := Dispatched), q);
    }
    assert RunOk(mode, s', r);
  }

  lemma SaveRecorded(mode: Mode, s: State, r: RunId)
    requires InstallsOk(mode, s) && At(s, r, Dispatched) && RunOk(mode, s, r)
    ensures InstallsOk(mode, AfterSave(s, r)) && RunOk(mode, AfterSave(s, r), r)
  {
  }

  lemma SaveKeepsInv(mode: Mode, s: State, r: RunId)
    requires Inv(mode, s) && At(s, r, Dispatched)
    ensures Inv(mode, AfterSave(s, r))
  {
    var h, s' := HashOf(s, r), AfterSave(s, r);
    assert RunOk(mode, s, r);
    SizeAfterInsert(s.view, h, s'.view[h]);
    forall q | q in s.runs && q != r ensures RunOk(mode, s', q) {
      assert RunOk(mode, s, q);
      OwnFileKeepsOthers(mode, s, s', r, s.runs[r].(pc := SaveFlushing), q);
    }
    SaveRecorded(mode, s, r);
  }

  /** After a power failure the effects that happened still have their claims. */
  lemma PowerFailureKeepsInstalls(mode: Mode, s: State, view': map<Hash, Content>, lock': Lock)
    requires InstallsOk(mode, s) && Survives(s, view') && !mode.WindowsCalm?
    ensures InstallsOk(mode, AfterPowerFailure(s, view', lock'))
  {
  }

  lemma PowerFailureKeepsInv(mode: Mode, s: State, view': map<Hash, Content>, lock': Lock)
    requires Inv(mode, s) && Survives(s, view') && !lock'.Held? && !mode.WindowsCalm?
    ensures Inv(mode, AfterPowerFailure(s, view', lock'))
  {
    var s' := AfterPowerFailure(s, view', lock');
    SubsetSize(view'.Keys, s.view.Keys);
    assert |view'| == |view'.Keys| && |s.view| == |s.view.Keys|;
    PowerFailureKeepsInstalls(mode, s, view', lock');
    forall r | r in s'.runs ensures RunOk(mode, s', r) && !Created(s'.runs[r].pc) {
    }
  }

  /** Only a run that is under the lock holds it. */
  lemma NotHolder(mode: Mode, s: State, r: RunId)
    requires Inv(mode, s) && (r in s.runs ==> !HoldsLock(s.runs[r].pc))
    ensures s.lock != Held(r)
  {
  }

  lemma StartKeepsInv(mode: Mode, s: State, r: RunId, run: Run)
    requires Inv(mode, s) && (r in s.runs ==> !HoldsLock(s.runs[r].pc)) && !Created(run.pc) && !HoldsLock(run.pc)
    ensures Inv(mode, Quiet(s, r, run, s.lock))
  {
    NotHolder(mode, s, r);
    IdleKeepsInv(mode, s, r, run, s.lock);
  }

  lemma TakeLockKeepsInv(mode: Mode, s: State, r: RunId)
    requires Inv(mode, s) && At(s, r, WantLock) && s.lock.Free?
    ensures Inv(mode, Quiet(s, r, s.runs[r].(pc := Looking), Held(r)))
  {
    IdleKeepsInv(mode, s, r, s.runs[r].(pc := Looking), Held(r));
  }

  lemma TakeStepKeepsInv(mode: Mode, s: State, r: RunId, s': State)
    requires Inv(mode, s) && Next(OnWindows(mode), s, TakeLock(r), s')
    ensures Inv(mode, s')
  {
    if s.lock.Free? { TakeLockKeepsInv(mode, s, r); } else { StartKeepsInv(mode, s, r, s.runs[r].(pc := Ended)); }
  }

  lemma CheckKeepsInv(mode: Mode, s: State, r: RunId, s': State)
    requires Inv(mode, s) && Next(OnWindows(mode), s, Check(r), s')
    ensures Inv(mode, s')
  {
    StartKeepsInv(mode, s, r,
                  s.runs[r].(pc := if Listable(s.view) && HashOf(s, r) !in s.view then Preparing else Ended));
  }

  /** Everything up to taking the lock. */
  lemma EarlyKeepsInv(mode: Mode, s: State, step: Step, s': State)
    requires Inv(mode, s) && Next(OnWindows(mode), s, step, s')
             && (step.Start? || step.Check? || step.Prepare? || step.TakeLock?)
    ensures Inv(mode, s')
  {
    match step
    case Start(r, key) => StartKeepsInv(mode, s, r, Run(key, "", false, false, Checking));
    case Check(r) => CheckKeepsInv(mode, s, r, s');
    case Prepare(r, digest, consent) =>
      StartKeepsInv(mode, s, r, s.runs[r].(artifactDigest := digest, consent := consent, pc := WantLock));
    case TakeLock(r) => TakeStepKeepsInv(mode, s, r, s');
  }

  /** Going on under the lock, or giving it up. */
  lemma HolderKeepsInv(mode: Mode, s: State, r: RunId, pc: Pc)
    requires Inv(mode, s) && r in s.runs && HoldsLock(s.runs[r].pc) && !Created(pc)
             && (pc.Opening? ==> |s.view| < LEDGER_LIMIT)
    ensures Inv(mode, Under(s, r, pc))
  {
    assert RunOk(mode, s, r);
    IdleKeepsInv(mode, s, r, s.runs[r].(pc := pc), if HoldsLock(pc) then s.lock else Free);
  }

  /** Looking, counting and giving up under the lock. */
  lemma LockedKeepsInv(mode: Mode, s: State, step: Step, s': State)
    requires Inv(mode, s) && Next(OnWindows(mode), s, step, s')
    requires step.Look? || step.Count? || (step.Open? && HashOf(s, step.r) in s.view)
    ensures Inv(mode, s')
  {
    match step
    case Look(r) => HolderKeepsInv(mode, s, r, if HashOf(s, r) in s.view then Ended else Counting);
    case Count(r) => HolderKeepsInv(mode, s, r, if Listable(s.view) && |s.view| < LEDGER_LIMIT then Opening else Ended);
    case Open(r) => HolderKeepsInv(mode, s, r, Ended);
  }

  lemma UnlockKeepsInv(mode: Mode, s: State, r: RunId, s': State)
    requires Inv(mode, s) && Next(OnWindows(mode), s, Unlock(r), s')
    ensures Inv(mode, s')
  {
    assert RunOk(mode, s, r);
    if s.runs[r].consent {
      ClaimedKeepsInv(mode, s, r);
    } else {
      IdleKeepsInv(mode, s, r, s.runs[r].(pc := Ended), Free);
    }
  }

  lemma EndKeepsInv(mode: Mode, s: State, step: Step, s': State)
    requires Inv(mode, s) && Next(OnWindows(mode), s, step, s') && (step.Fail? || step.Crash?)
    ensures Inv(mode, s')
  {
    var r := step.r;
    assert RunOk(mode, s, r);
    IdleKeepsInv(mode, s, r, s.runs[r].(pc := Ended), s'.lock);
  }

  lemma CreatingStepKeepsInv(mode: Mode, s: State, step: Step, s': State)
    requires Inv(mode, s) && Next(OnWindows(mode), s, step, s')
             && (step.Open? || step.Write? || step.Flush? || step.FlushDir?)
    ensures Inv(mode, s')
  {
    match step
    case Open(r) => if HashOf(s, r) in s.view { LockedKeepsInv(mode, s, step, s'); } else { OpenKeepsInv(mode, s, r); }
    case Write(r) => WriteKeepsInv(mode, s, r);
    case Flush(r) => FlushKeepsInv(mode, s, r);
    case FlushDir(r) => SyncKeepsInv(mode, s, r, Unlocking);
  }

  lemma EffectStepKeepsInv(mode: Mode, s: State, step: Step, s': State)
    requires Inv(mode, s) && Next(OnWindows(mode), s, step, s')
             && (step.Install? || step.Save? || step.SaveFlush? || step.Unlock?)
    ensures Inv(mode, s')
  {
    match step
    case Install(r, effect, returned) => InstallKeepsInv(mode, s, r, effect, returned);
    case Save(r) => SaveKeepsInv(mode, s, r);
    case SaveFlush(r) => SyncKeepsInv(mode, s, r, Ended);
    case Unlock(r) => UnlockKeepsInv(mode, s, r, s');
  }

  lemma StepKeepsInv(mode: Mode, s: State, step: Step, s': State)
    requires Inv(mode, s) && Next(OnWindows(mode), s, step, s') && (step.PowerFailure? ==> !mode.WindowsCalm?)
    ensures Inv(mode, s')
  {
    if step.Open? || step.Write? || step.Flush? || step.FlushDir? {
      CreatingStepKeepsInv(mode, s, step, s');
    } else if step.Install? || step.Save? || step.SaveFlush? || step.Unlock? {
      EffectStepKeepsInv(mode, s, step, s');
    } else if step.PowerFailure? {
      PowerFailureKeepsInv(mode, s, step.view, step.lock);
    } else if step.Fail? || step.Crash? {
      EndKeepsInv(mode, s, step, s');
    } else if step.Look? || step.Count? {
      LockedKeepsInv(mode, s, step, s');
    } else {
      EarlyKeepsInv(mode, s, step, s');
    }
  }

  // ----- the theorems over every interleaving, crash and power failure -----

  lemma InitHasInv(mode: Mode, s: State)
    requires Init(s)
    ensures Inv(mode, s)
  {
  }

  /** No power failure among the first `n` steps. */
  predicate Calm(steps: seq<Step>, n: nat)
    requires n <= |steps|
  {
    forall i :: 0 <= i < n ==> !steps[i].PowerFailure?
  }

  ghost function ModeAt(win: bool, steps: seq<Step>, n: nat): Mode
    requires n <= |steps|
  {
    if !win then Posix else if Calm(steps, n) then WindowsCalm else WindowsLossy
  }

  lemma CalmIsLossy(s: State)
    requires Inv(WindowsCalm, s)
    ensures Inv(WindowsLossy, s)
  {
    forall r | r in s.runs ensures RunOk(WindowsLossy, s, r) { assert RunOk(WindowsCalm, s, r); }
  }

  lemma {:induction false} EveryStateKeepsInv(win: bool, states: seq<State>, steps: seq<Step>, n: nat)
    requires IsRun(win, states, steps) && n < |states|
    ensures Inv(ModeAt(win, steps, n), states[n])
  {
    if n == 0 {
      InitHasInv(ModeAt(win, steps, n), states[0]);
    } else {
      EveryStateKeepsInv(win, states, steps, n - 1);
      assert StepAt(win, states, steps, n - 1);
      var before, after := ModeAt(win, steps, n - 1), ModeAt(win, steps, n);
      if before.WindowsCalm? && after.WindowsLossy? { CalmIsLossy(states[n - 1]); }
      StepKeepsInv(after, states[n - 1], steps[n - 1], states[n]);
    }
  }

  /** The install effect for one prepared hash happens at most once: ever, or on Windows up to a power failure. */
  lemma InstalledAtMostOnce(win: bool, states: seq<State>, steps: seq<Step>, n: nat)
    requires IsRun(win, states, steps) && n < |states| && (win ==> Calm(steps, n))
    ensures NoDup(states[n].installs)
  {
    EveryStateKeepsInv(win, states, steps, n);
  }

  /**
   When the effect is dispatched its claim, with outcome unknown, is there, is the run's own, and is
   durable but on Windows.
   */
  lemma ClaimPrecedesEffect(win: bool, states: seq<State>, steps: seq<Step>, n: nat)
    requires IsRun(win, states, steps) && n < |steps| && steps[n].Install?
    ensures var r := steps[n].r;
            r in states[n].runs &&
            var run := states[n].runs[r];
            var h := run.key.preparedHash;
            && h in states[n].view && states[n].view[h] == Claim(run.key, run.artifactDigest, OutcomeUnknown)
            && (!win ==> h in states[n].disk && states[n].disk[h] == states[n].view[h])
            && ((win ==> Calm(steps, n)) ==> h !in states[n].installs)
  {
    EveryStateKeepsInv(win, states, steps, n);
    assert StepAt(win, states, steps, n);
    assert RunOk(ModeAt(win, steps, n), states[n], steps[n].r);
  }

  /** A declined hash was never installed, and an installer is reported to have returned only if it had an effect. */
  lemma ClaimStatusIsTruthful(win: bool, states: seq<State>, steps: seq<Step>, n: nat, h: Hash)
    requires IsRun(win, states, steps) && n < |states| && h in states[n].view && states[n].view[h].Claim?
    ensures (win ==> Calm(steps, n)) && states[n].view[h].status.Declined? ==> h !in states[n].installs
    ensures states[n].view[h].status.InstallerReturned? ==> h in states[n].installs
  {
    EveryStateKeepsInv(win, states, steps, n);
  }

  /** An installed hash keeps a readable claim: a durable one, or on Windows one that lasts up to a power failure. */
  lemma InstalledHashStaysClaimed(win: bool, states: seq<State>, steps: seq<Step>, n: nat, h: Hash)
    requires IsRun(win, states, steps) && n < |states| && h in states[n].installs && (win ==> Calm(steps, n))
    ensures h in states[n].view && Effective(states[n].view[h])
    ensures !win ==> h in states[n].disk && Effective(states[n].disk[h])
  {
    EveryStateKeepsInv(win, states, steps, n);
  }

  lemma LedgerStaysBounded(win: bool, states: seq<State>, steps: seq<Step>, n: nat)
    requires IsRun(win, states, steps) && n < |states|
    ensures |states[n].view| <= 128
  {
    EveryStateKeepsInv(win, states, steps, n);
  }

  // ----- Windows after a power failure -----

  ghost predicate CanReach(win: bool, s: State) {
    exists states, steps :: IsRun(win, states, steps) && states[|steps|] == s
  }

  lemma ReachNext(win: bool, s: State, step: Step, s': State)
    requires CanReach(win, s) && Next(win, s, step, s')
    ensures CanReach(win, s')
  {
    var states, steps :| IsRun(win, states, steps) && states[|steps|] == s;
    var states', steps' := states + [s'], steps + [step];
    forall i | 0 <= i < |steps'| ensures StepAt(win, states', steps', i) {
      if i < |steps| { assert StepAt(win, states, steps, i); }
    }
    assert IsRun(win, states', steps') && states'[|steps'|] == s';
  }

  /** `s`, in which run `r` has come this far, with this ledger. */
  function With(s: State, r: RunId, run: Run, lock: Lock, view: map<Hash, Content>, flushed: set<Hash>): State {
    s.(runs := s.runs[r := run], lock := lock, view := view, flushed := flushed)
  }

  /** Nothing is claimed, nobody works, and `r` has not started. */
  ghost predicate Blank(s: State, r: RunId) {
    r !in s.runs && s.lock.Free? && s.view == s.disk == map[] && s.flushed == {}
  }

  lemma ReachWith(win: bool, s: State, r: RunId, run: Run, lock: Lock, view: map<Hash, Content>, flushed: set<Hash>,
                                     step: Step, run': Run, lock': Lock, view': map<Hash, Content>, flushed': set<Hash>)
    requires CanReach(win, With(s, r, run, lock, view, flushed))
    requires Next(win, With(s, r, run, lock, view, flushed), step,
             With(With(s, r, run, lock, view, flushed), r, run', lock', view', flushed'))
    ensures CanReach(win, With(s, r, run', lock', view', flushed'))
  {
    var before := With(s, r, run, lock, view, flushed);
    assert s.runs[r := run][r := run'] == s.runs[r := run'];
    assert With(before, r, run', lock', view', flushed') == With(s, r, run', lock', view', flushed');
    ReachNext(win, before, step, With(s, r, run', lock', view', flushed'));
  }

  lemma ComesToLock(s: State, r: RunId, key: Key)
    requires CanReach(true, s) && Blank(s, r) && ValidKey(key)
    ensures CanReach(true, With(s, r, Run(key, "", true, false, WantLock), Free, map[], {}))
  {
    var start := Run(key, "", false, false, Checking);
    assert With(s, r, start, Free, map[], {}) == Quiet(s, r, start, s.lock);
    ReachNext(true, s, Start(r, key), With(s, r, start, Free, map[], {}));
    ReachWith(true, s, r, start, Free, map[], {}, Check(r), start.(pc := Preparing), Free, map[], {});
    ReachWith(true, s, r, start.(pc := Preparing), Free, map[], {},
              Prepare(r, "", true), start.(consent := true, pc := WantLock), Free, map[], {});
  }

  lemma ComesToOpening(s: State, r: RunId, run: Run)
    requires CanReach(true, With(s, r, run, Free, map[], {})) && run.pc.WantLock?
    ensures CanReach(true, With(s, r, run.(pc := Opening), Held(r), map[], {}))
  {
    ReachWith(true, s, r, run, Free, map[], {}, TakeLock(r), run.(pc := Looking), Held(r), map[], {});
    ReachWith(true, s, r, run.(pc := Looking), Held(r), map[], {}, Look(r), run.(pc := Counting), Held(r), map[], {});
    ReachWith(true, s, r, run.(pc := Counting), Held(r), map[], {}, Count(r), run.(pc := Opening), Held(r), map[], {});
  }

  lemma ComesToFlushing(s: State, r: RunId, run: Run, h: Hash)
    requires CanReach(true, With(s, r, run, Held(r), map[], {})) && run.pc.Opening? && h == run.key.preparedHash
    ensures CanReach(true, With(s, r, run.(pc := Flushing), Held(r), map[h := ClaimOf(run, FirstStatus(run))], {}))
  {
    var torn, full := map[h := Torn], map[h := ClaimOf(run, FirstStatus(run))];
    assert map[][h := Torn] == torn && torn[h := full[h]] == full;
    ReachWith(true, s, r, run, Held(r), map[], {}, Open(r), run.(pc := Writing), Held(r), torn, {});
    ReachWith(true, s, r, run.(pc := Writing), Held(r), torn, {}, Write(r), run.(pc := Flushing), Held(r), full, {});
  }

  lemma FileFlushes(s: State, r: RunId, run: Run, h: Hash, view: map<Hash, Content>)
    requires CanReach(true, With(s, r, run, Held(r), view, {})) && run.pc.Flushing? && h == run.key.preparedHash
    ensures CanReach(true, With(s, r, run.(pc := FlushingDir), Held(r), view, {h}))
  {
    var before, after := With(s, r, run, Held(r), view, {}), With(s, r, run.(pc := FlushingDir), Held(r), view, {h});
    assert before.runs[r := run.(pc := FlushingDir)] == after.runs;
    assert AfterFlush(before, r) == after;
    ReachNext(true, before, Flush(r), after);
  }

  lemma ComesToClaimed(s: State, r: RunId, run: Run, view: map<Hash, Content>, flushed: set<Hash>)
    requires CanReach(true, With(s, r, run, Held(r), view, flushed)) && run.pc.FlushingDir? && run.consent
    ensures CanReach(true, With(s, r, run.(pc := Claimed), Free, view, flushed))
  {
    ReachWith(true, s, r, run, Held(r), view, flushed, FlushDir(r), run.(pc := Unlocking), Held(r), view, flushed);
    ReachWith(true, s, r, run.(pc := Unlocking), Held(r), view, flushed, Unlock(r), run.(pc := Claimed), Free, view,
              flushed);
  }

  lemma LosesPower(s: State, none: map<Hash, Content>)
    requires CanReach(true, s) && s.disk == map[] == none
    ensures CanReach(true, AfterPowerFailure(s, none, Free))
  {
    assert none.Keys == {};
    ReachNext(true, s, PowerFailure(none, Free), AfterPowerFailure(s, none, Free));
  }

  /** A whole installation on Windows leaves no durable trace: power lost, the ledger may be blank again. */
  lemma InstallsThenForgets(s: State, r: RunId, key: Key) returns (s': State)
    requires CanReach(true, s) && Blank(s, r) && ValidKey(key)
    ensures CanReach(true, s') && s'.installs == s.installs + [key.preparedHash]
    ensures forall q :: q !in s.runs && q != r ==> Blank(s', q)
  {
    var h, run := key.preparedHash, Run(key, "", true, false, WantLock);
    var view := map[h := ClaimOf(run, FirstStatus(run))];
    ComesToLock(s, r, key);
    ComesToOpening(s, r, run);
    ComesToFlushing(s, r, run.(pc := Opening), h);
    FileFlushes(s, r, run.(pc := Flushing), h, view);
    ComesToClaimed(s, r, run.(pc := FlushingDir), view, {h});
    var claimed := With(s, r, run.(pc := Claimed), Free, view, {h});
    var done := AfterInstall(claimed, r, true, true);
    ReachNext(true, claimed, Install(r, true, true), done);
    LosesPower(done, map[]);
    s' := AfterPowerFailure(done, map[], Free);
  }

  /** On Windows one hash is installed twice when the power fails between two runs. */
  lemma WindowsPowerLossReinstalls(key: Key) returns (s: State)
    requires ValidKey(key)
    ensures CanReach(true, s) && s.installs == [key.preparedHash, key.preparedHash]
  {
    var start, none: seq<Step> := State(map[], map[], {}, Free, map[], []), [];
    assert IsRun(true, [start], none) && [start][|none|] == start;
    var once := InstallsThenForgets(start, 0, key);
    s := InstallsThenForgets(once, 1, key);
  }
}
