/**
 How a run comes to make its claim: only for a hash that nobody has claimed, under a lock it never
 waits for, and into a ledger without the remains of another claim.
 */
module ReleaseOpening {
  import opened ReleaseClaims
  import opened ReleaseOutcomes

  // ----- what a run has looked up under the lock stays so -----

  ghost predicate Looked(s: State, r: RunId)
    requires r in s.runs
  {
    && (s.runs[r].pc.Counting? || s.runs[r].pc.Opening? ==> HashOf(s, r) !in s.view)
    && (s.runs[r].pc.Opening? ==> |s.view| < 128 && forall g :: g in s.view ==> s.view[g].Claim?)
  }

  /** A step of another run makes no file while `r` holds the lock, and leaves no remains. */
  lemma OthersAddNothing(mode: Mode, s: State, step: Step, s': State, r: RunId)
    requires Next(OnWindows(mode), s, step, s') && !OfRun(step, r) && !step.PowerFailure?
    requires r in s.runs && RunOk(mode, s, r) && HoldsLock(s.runs[r].pc)
    requires step.r in s.runs ==> RunOk(mode, s, step.r)
    ensures s'.view.Keys == s.view.Keys
    ensures (forall g :: g in s.view ==> s.view[g].Claim?) ==> forall g :: g in s'.view ==> s'.view[g].Claim?
  {
    if step.Save? { assert s'.view.Keys == s.view.Keys; }
  }

  lemma OwnLookedStep(win: bool, s: State, step: Step, s': State, r: RunId)
    requires Next(win, s, step, s') && OfRun(step, r) && r in s'.runs && (r in s.runs ==> Looked(s, r))
    ensures Looked(s', r)
  {
  }

  lemma LookedStep(mode: Mode, s: State, step: Step, s': State, r: RunId)
    requires Inv(mode, s) && Next(OnWindows(mode), s, step, s') && r in s'.runs && (r in s.runs ==> Looked(s, r))
    ensures Looked(s', r)
  {
    if OfRun(step, r) {
      OwnLookedStep(OnWindows(mode), s, step, s', r);
    } else {
      OthersStay(OnWindows(mode), s, step, s', r);
      if !step.PowerFailure? && (s.runs[r].pc.Counting? || s.runs[r].pc.Opening?) {
        assert RunOk(mode, s, r) && (step.r in s.runs ==> RunOk(mode, s, step.r));
        OthersAddNothing(mode, s, step, s', r);
        assert |s'.view| == |s'.view.Keys| == |s.view.Keys| == |s.view|;
      }
    }
  }

  lemma {:induction false} EveryRunLooked(win: bool, states: seq<State>, steps: seq<Step>, n: nat, r: RunId)
    requires IsRun(win, states, steps) && n < |states| && r in states[n].runs
    ensures Looked(states[n], r)
  {
    if n > 0 {
      assert StepAt(win, states, steps, n - 1);
      if r in states[n - 1].runs { EveryRunLooked(win, states, steps, n - 1, r); }
      EveryStateKeepsInv(win, states, steps, n - 1);
      var mode := ModeAt(win, steps, n - 1);
      LookedStep(mode, states[n - 1], steps[n - 1], states[n], r);
    }
  }

  /**
   A claim file is made only beside whole claims, of fewer than 128 hashes and none of them its own:
   the exclusive creation never finds a file in its way.
   */
  lemma OpensIntoCleanLedger(win: bool, states: seq<State>, steps: seq<Step>, n: nat, r: RunId)
    requires IsRun(win, states, steps) && n < |steps| && steps[n] == Open(r)
    ensures r in states[n].runs && HashOf(states[n], r) !in states[n].view && |states[n].view| < 128
    ensures forall g :: g in states[n].view ==> states[n].view[g].Claim?
    ensures states[n + 1].view == states[n].view[HashOf(states[n], r) := Torn]
    ensures r in states[n + 1].runs && states[n + 1].runs[r].pc.Writing?
  {
    assert StepAt(win, states, steps, n);
    EveryRunLooked(win, states, steps, n, r);
  }

  // ----- the lock -----

  /** Whoever finds the lock taken gives up. */
  lemma NobodyWaits(win: bool, states: seq<State>, steps: seq<Step>, n: nat, r: RunId)
    requires IsRun(win, states, steps) && n < |steps| && steps[n] == TakeLock(r)
    ensures r in states[n + 1].runs
    ensures if states[n].lock.Free? then states[n + 1].lock == Held(r) && HoldsLock(states[n + 1].runs[r].pc)
            else states[n + 1].lock == states[n].lock && states[n + 1].runs[r].pc.Ended?
  {
    assert StepAt(win, states, steps, n);
  }

  /** The process died while it held the lock, or the machine did. */
  predicate LeavesLock(s: State, step: Step) {
    step.PowerFailure? || (step.Crash? && step.r in s.runs && HoldsLock(s.runs[step.r].pc))
  }

  lemma StaleStep(win: bool, s: State, step: Step, s': State)
    requires Next(win, s, step, s') && s'.lock.Stale? && !s.lock.Stale?
    ensures LeavesLock(s, step)
  {
  }

  /** A lock is left behind only by a crash: a run that fails takes it away. */
  lemma {:induction false} StaleLockHasCause(win: bool, states: seq<State>, steps: seq<Step>, n: nat) returns (m: nat)
    requires IsRun(win, states, steps) && n < |states| && states[n].lock.Stale?
    ensures m < n && LeavesLock(states[m], steps[m])
  {
    m := n - 1;
    assert StepAt(win, states, steps, m);
    if states[m].lock.Stale? {
      m := StaleLockHasCause(win, states, steps, m);
    } else {
      StaleStep(win, states[m], steps[m], states[n]);
    }
  }

  /** Without crashes the lock is taken exactly while some run works under it. */
  lemma LockIsTakenWhileUsed(win: bool, states: seq<State>, steps: seq<Step>, n: nat)
    requires IsRun(win, states, steps) && n < |states| && forall m :: 0 <= m < n ==> !LeavesLock(states[m], steps[m])
    ensures !states[n].lock.Free? <==> exists r :: r in states[n].runs && HoldsLock(states[n].runs[r].pc)
  {
    EveryStateKeepsInv(win, states, steps, n);
    if states[n].lock.Stale? { var m := StaleLockHasCause(win, states, steps, n); }
    if r :| r in states[n].runs && HoldsLock(states[n].runs[r].pc) {
      assert RunOk(ModeAt(win, steps, n), states[n], r);
    }
  }

  // ----- the check before anybody is asked -----

  lemma StillPreparing(win: bool, s: State, step: Step, s': State, r: RunId)
    requires Next(win, s, step, s') && r in s'.runs && s'.runs[r].pc.Preparing? && step != Check(r)
    ensures r in s.runs && s.runs[r] == s'.runs[r]
  {
    if !OfRun(step, r) { OthersStay(win, s, step, s', r); }
  }

  lemma {:induction false} CheckedBefore(win: bool, states: seq<State>, steps: seq<Step>, n: nat, r: RunId)
    returns (m: nat)
    requires IsRun(win, states, steps) && n < |states| && r in states[n].runs && states[n].runs[r].pc.Preparing?
    ensures m < n && steps[m] == Check(r) && HashOf(states[n], r) !in states[m].view
    ensures forall g :: g in states[m].view ==> states[m].view[g].Claim?
  {
    m := n - 1;
    assert StepAt(win, states, steps, m);
    if steps[m] != Check(r) {
      StillPreparing(win, states[m], steps[m], states[n], r);
      m := CheckedBefore(win, states, steps, m, r);
    }
  }

  /** Nobody is asked about a hash that was claimed when its run looked, nor beside an unfinished claim. */
  lemma AskedOnlyUnclaimed(win: bool, states: seq<State>, steps: seq<Step>, n: nat) returns (m: nat)
    requires IsRun(win, states, steps) && n < |steps| && steps[n].Prepare?
    ensures steps[n].r in states[n].runs && m < n && steps[m] == Check(steps[n].r)
    ensures HashOf(states[n], steps[n].r) !in states[m].view
    ensures forall g :: g in states[m].view ==> states[m].view[g].Claim?
  {
    assert StepAt(win, states, steps, n);
    m := CheckedBefore(win, states, steps, n, steps[n].r);
  }

  // ----- what the ledger files are called and hold -----

  /** At most 128 visible characters, and nothing that could lead out of a directory. */
  predicate IsHarmless(id: string) {
    1 <= |id| <= 128 && forall i :: 0 <= i < |id| ==> ' ' < id[i] <= 'z' && id[i] != '/' && id[i] != '\\'
  }

  predicate IsPlain(key: Key) {
    && |key.preparedHash| == 64 && IsHarmless(key.preparedHash)
    && IsHarmless(key.grantId) && IsHarmless(key.projectId) && IsHarmless(key.hostSessionId)
  }

  lemma ValidIsPlain(key: Key)
    requires ValidKey(key)
    ensures IsPlain(key)
  {
  }

  /** The file of a hash holds a claim of that hash. */
  predicate Fits(h: Hash, c: Content) {
    c.Claim? ==> c.key.preparedHash == h && IsPlain(c.key)
  }

  ghost predicate Filed(files: map<Hash, Content>) {
    forall h :: h in files ==> Fits(h, files[h])
  }

  ghost predicate AllFiled(s: State) {
    Filed(s.view) && Filed(s.disk) && forall r :: r in s.runs ==> IsPlain(s.runs[r].key)
  }

  lemma RunsStayPlain(win: bool, s: State, step: Step, s': State, r: RunId)
    requires Next(win, s, step, s') && r in s'.runs && (r in s.runs ==> IsPlain(s.runs[r].key))
    ensures IsPlain(s'.runs[r].key)
  {
    if step.Start? { ValidIsPlain(step.key); }
    if !OfRun(step, r) { OthersStay(win, s, step, s', r); }
  }

  lemma ViewStaysFiled(win: bool, s: State, step: Step, s': State, h: Hash)
    requires Next(win, s, step, s') && AllFiled(s) && h in s'.view
    ensures Fits(h, s'.view[h])
  {
    if step.Save? || step.Write? { assert IsPlain(s.runs[step.r].key); }
  }

  lemma DiskStaysFiled(win: bool, s: State, step: Step, s': State, h: Hash)
    requires Next(win, s, step, s') && Filed(s.view) && Filed(s.disk) && h in s'.disk
    ensures Fits(h, s'.disk[h])
  {
  }

  lemma FiledStep(win: bool, s: State, step: Step, s': State)
    requires Next(win, s, step, s') && AllFiled(s)
    ensures AllFiled(s')
  {
    forall h | h in s'.view ensures Fits(h, s'.view[h]) { ViewStaysFiled(win, s, step, s', h); }
    forall h | h in s'.disk ensures Fits(h, s'.disk[h]) { DiskStaysFiled(win, s, step, s', h); }
    forall r | r in s'.runs ensures IsPlain(s'.runs[r].key) { RunsStayPlain(win, s, step, s', r); }
  }

  lemma {:induction false} LedgerIsFiled(win: bool, states: seq<State>, steps: seq<Step>, n: nat)
    requires IsRun(win, states, steps) && n < |states|
    ensures AllFiled(states[n])
  {
    if n > 0 {
      LedgerIsFiled(win, states, steps, n - 1);
      assert StepAt(win, states, steps, n - 1);
      FiledStep(win, states[n - 1], steps[n - 1], states[n]);
    }
  }

  /** Flushing the directory makes its entries durable, but not contents that were never flushed. */
  lemma UnflushedIsLost(states: seq<State>, steps: seq<Step>, n: nat, h: Hash)
    requires IsRun(false, states, steps) && n < |steps| && (steps[n].FlushDir? || steps[n].SaveFlush?)
    requires h in states[n].view
    ensures h in states[n + 1].disk
    ensures if h in states[n].flushed then states[n + 1].disk[h] == states[n].view[h] else states[n + 1].disk[h].Torn?
  {
    assert StepAt(false, states, steps, n);
  }
}
