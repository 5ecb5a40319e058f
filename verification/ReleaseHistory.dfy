/**
 What becomes of claims and effects in the course of a run of the release ledger: claims stay, a
 declined one for good, and effects are repeated only after a power failure.
 */
module ReleaseHistory {
  import opened Ordering
  import opened ReleaseClaims

  // ----- what one step leaves alone -----

  lemma ViewGrows(win: bool, s: State, step: Step, s': State)
    requires Next(win, s, step, s') && !step.PowerFailure?
    ensures s.view.Keys <= s'.view.Keys
  {
  }

  lemma DiskGrows(win: bool, s: State, step: Step, s': State)
    requires Next(win, s, step, s') && s.disk.Keys <= s.view.Keys
    ensures s.disk.Keys <= s'.disk.Keys
  {
  }

  /** The effect of a step, if it has one. */
  function Effects(s: State, step: Step): seq<Hash> {
    if step.Install? && step.effect && step.r in s.runs then [HashOf(s, step.r)] else []
  }

  lemma InstallsGrow(win: bool, s: State, step: Step, s': State)
    requires Next(win, s, step, s')
    ensures s'.installs == s.installs + Effects(s, step)
  {
    assert s.installs + [] == s.installs;
  }

  /** A run that may still install had its file before, or makes it now. */
  lemma BeforeEffectOrigin(win: bool, s: State, step: Step, s': State, r: RunId)
    requires Next(win, s, step, s') && !step.PowerFailure? && r in s'.runs && BeforeEffect(s'.runs[r].pc)
    ensures r in s.runs && s.runs[r].key == s'.runs[r].key
    ensures BeforeEffect(s.runs[r].pc) || HashOf(s, r) !in s.view
    ensures !(step.Install? && step.r == r)
  {
  }

  // ----- claims stay -----

  lemma {:induction false} ViewStays(win: bool, states: seq<State>, steps: seq<Step>, n: nat, m: nat, h: Hash)
    requires IsRun(win, states, steps) && n <= m < |states| && h in states[n].view
    requires forall i :: n <= i < m ==> !steps[i].PowerFailure?
    ensures h in states[m].view
  {
    if n < m {
      ViewStays(win, states, steps, n, m - 1, h);
      assert StepAt(win, states, steps, m - 1);
      ViewGrows(win, states[m - 1], steps[m - 1], states[m]);
    }
  }

  lemma {:induction false} DiskStays(win: bool, states: seq<State>, steps: seq<Step>, n: nat, m: nat, h: Hash)
    requires IsRun(win, states, steps) && n <= m < |states| && h in states[n].disk
    ensures h in states[m].disk && h in states[m].view
  {
    EveryStateKeepsInv(win, states, steps, m);
    if n < m {
      DiskStays(win, states, steps, n, m - 1, h);
      EveryStateKeepsInv(win, states, steps, m - 1);
      assert StepAt(win, states, steps, m - 1);
      DiskGrows(win, states[m - 1], steps[m - 1], states[m]);
    }
  }

  /** Claims are never evicted: a durable entry stays for good, any entry up to the next power failure. */
  lemma ClaimsAreNeverEvicted(win: bool, states: seq<State>, steps: seq<Step>, n: nat, m: nat, h: Hash)
    requires IsRun(win, states, steps) && n <= m < |states| && h in states[n].view
    requires h in states[n].disk || forall i :: n <= i < m ==> !steps[i].PowerFailure?
    ensures h in states[m].view
  {
    if h in states[n].disk {
      DiskStays(win, states, steps, n, m, h);
    } else {
      ViewStays(win, states, steps, n, m, h);
    }
  }

  // ----- a declined claim is final -----

  /** The claim is on disk, content and entry, and says that the user declined. */
  ghost predicate DeclinedForGood(s: State, h: Hash, c: Content) {
    && c.Claim? && c.status.Declined?
    && h in s.view && h in s.disk && h in s.flushed && s.view[h] == s.disk[h] == c
  }

  lemma OwnFileStep(mode: Mode, s: State, step: Step, s': State, h: Hash, c: Content)
    requires Inv(mode, s) && Next(OnWindows(mode), s, step, s') && DeclinedForGood(s, h, c)
    requires step.Write? || step.Save? || step.Install? || step.Open?
    ensures DeclinedForGood(s', h, c) && h !in Effects(s, step)
  {
    assert RunOk(mode, s, step.r);
  }

  lemma DeclinedStep(mode: Mode, s: State, step: Step, s': State, h: Hash, c: Content)
    requires Inv(mode, s) && Next(OnWindows(mode), s, step, s') && DeclinedForGood(s, h, c)
    ensures DeclinedForGood(s', h, c) && h !in Effects(s, step)
  {
    if step.Write? || step.Save? || step.Install? || step.Open? { OwnFileStep(mode, s, step, s', h, c); }
  }

  /** A durable declined claim stays as it is for the rest of the run, and its hash is not installed any more. */
  lemma {:induction false} DeclinedIsFinal(win: bool, states: seq<State>, steps: seq<Step>, n: nat, m: nat, h: Hash,
                                           c: Content)
    requires IsRun(win, states, steps) && n <= m < |states| && DeclinedForGood(states[n], h, c)
    ensures DeclinedForGood(states[m], h, c)
    ensures states[n].installs <= states[m].installs && h !in states[m].installs[|states[n].installs|..]
  {
    if n < m {
      DeclinedIsFinal(win, states, steps, n, m - 1, h, c);
      EveryStateKeepsInv(win, states, steps, m - 1);
      assert StepAt(win, states, steps, m - 1);
      DeclinedStep(ModeAt(win, steps, m - 1), states[m - 1], steps[m - 1], states[m], h, c);
      InstallsGrow(win, states[m - 1], steps[m - 1], states[m]);
    }
  }

  /** So, but on Windows after a power failure, it was never installed and never will be. */
  lemma DeclinedIsNeverInstalled(win: bool, states: seq<State>, steps: seq<Step>, n: nat, m: nat, h: Hash, c: Content)
    requires IsRun(win, states, steps) && n <= m < |states| && DeclinedForGood(states[n], h, c)
             && (win ==> Calm(steps, n))
    ensures h !in states[m].installs
  {
    ClaimStatusIsTruthful(win, states, steps, n, h);
    DeclinedIsFinal(win, states, steps, n, m, h, c);
  }

  // ----- effects are repeated only after a power failure -----

  /** How many effects there were at the last power failure. */
  function Base(states: seq<State>, steps: seq<Step>, n: nat): nat
    requires n <= |steps| < |states|
  {
    if n == 0 then 0
    else if steps[n - 1].PowerFailure? then |states[n].installs|
    else Base(states, steps, n - 1)
  }

  /** The effects from `base` on are all different, have their claims, and are not ahead of any run. */
  ghost predicate RecentOk(s: State, base: nat) {
    && base <= |s.installs| && NoDup(s.installs[base..])
    && (forall h :: h in s.installs[base..] ==> h in s.view)
    && forall r :: r in s.runs && BeforeEffect(s.runs[r].pc) ==> HashOf(s, r) !in s.installs[base..]
  }

  lemma QuietKeepsRecent(win: bool, s: State, step: Step, s': State, base: nat)
    requires RecentOk(s, base) && Next(win, s, step, s') && !step.PowerFailure? && Effects(s, step) == []
    ensures RecentOk(s', base)
  {
    InstallsGrow(win, s, step, s');
    ViewGrows(win, s, step, s');
    assert s'.installs == s.installs;
    forall r | r in s'.runs && BeforeEffect(s'.runs[r].pc) ensures HashOf(s', r) !in s'.installs[base..] {
      BeforeEffectOrigin(win, s, step, s', r);
    }
  }

  lemma InstallKeepsRecent(mode: Mode, s: State, step: Step, s': State, base: nat, h: Hash)
    requires Inv(mode, s) && RecentOk(s, base) && Next(OnWindows(mode), s, step, s') && Effects(s, step) == [h]
    ensures RecentOk(s', base) && h !in s.installs[base..]
  {
    var win := OnWindows(mode);
    InstallsGrow(win, s, step, s');
    ViewGrows(win, s, step, s');
    assert RunOk(mode, s, step.r);
    assert s'.installs[base..] == s.installs[base..] + [h];
    forall r | r in s'.runs && BeforeEffect(s'.runs[r].pc) ensures HashOf(s', r) !in s'.installs[base..] {
      BeforeEffectOrigin(win, s, step, s', r);
      assert RunOk(mode, s, r);
    }
  }

  lemma PowerKeepsRecent(win: bool, s: State, step: Step, s': State)
    requires Next(win, s, step, s') && step.PowerFailure?
    ensures RecentOk(s', |s'.installs|)
  {
    assert s'.installs[|s'.installs|..] == [];
  }

  lemma {:induction false} EveryStateIsRecent(win: bool, states: seq<State>, steps: seq<Step>, n: nat)
    requires IsRun(win, states, steps) && n < |states|
    ensures RecentOk(states[n], Base(states, steps, n))
  {
    if n > 0 {
      var s, step, s' := states[n - 1], steps[n - 1], states[n];
      EveryStateIsRecent(win, states, steps, n - 1);
      EveryStateKeepsInv(win, states, steps, n - 1);
      assert StepAt(win, states, steps, n - 1);
      if step.PowerFailure? {
        PowerKeepsRecent(win, s, step, s');
      } else if Effects(s, step) == [] {
        QuietKeepsRecent(win, s, step, s', Base(states, steps, n - 1));
      } else {
        InstallKeepsRecent(ModeAt(win, steps, n - 1), s, step, s', Base(states, steps, n - 1), Effects(s, step)[0]);
      }
    }
  }

  /** On every platform: since the last power failure no hash was installed twice. */
  lemma InstalledOnceSincePowerFailure(win: bool, states: seq<State>, steps: seq<Step>, n: nat)
    requires IsRun(win, states, steps) && n < |states|
    ensures Base(states, steps, n) <= |states[n].installs| && NoDup(states[n].installs[Base(states, steps, n)..])
  {
    EveryStateIsRecent(win, states, steps, n);
  }

  /** The effects recorded up to a step stay where they are. */
  lemma {:induction false} InstallsStay(win: bool, states: seq<State>, steps: seq<Step>, m: nat, n: nat)
    requires IsRun(win, states, steps) && m <= n < |states|
    ensures states[m].installs <= states[n].installs
  {
    if m < n {
      InstallsStay(win, states, steps, m, n - 1);
      assert StepAt(win, states, steps, n - 1);
      InstallsGrow(win, states[n - 1], steps[n - 1], states[n]);
    }
  }

  lemma RecentDiffer(s: seq<Hash>, base: nat, i: nat, j: nat)
    requires base <= i < j < |s| && NoDup(s[base..])
    ensures s[i] != s[j]
  {
    assert s[base..][i - base] == s[i] && s[base..][j - base] == s[j];
  }

  /** Two effects of one hash have a power failure between them. */
  lemma {:induction false} RepeatsArePowerFailuresApart(win: bool, states: seq<State>, steps: seq<Step>, n: nat, i: nat,
                                                        j: nat)
    returns (m: nat)
    requires IsRun(win, states, steps) && n < |states|
    requires i < j < |states[n].installs| && states[n].installs[i] == states[n].installs[j]
    ensures m < n && steps[m].PowerFailure? && i < |states[m].installs| <= j
  {
    m := n - 1;
    EveryStateIsRecent(win, states, steps, n);
    assert StepAt(win, states, steps, m);
    InstallsGrow(win, states[m], steps[m], states[n]);
    if j < |states[m].installs| {
      m := RepeatsArePowerFailuresApart(win, states, steps, m, i, j);
    } else {
      var base := Base(states, steps, n);
      if base <= i { RecentDiffer(states[n].installs, base, i, j); }
      m := BaseIsPowerFailure(win, states, steps, n);
      InstallsStay(win, states, steps, m, n - 1);
    }
  }

  lemma {:induction false} BaseIsPowerFailure(win: bool, states: seq<State>, steps: seq<Step>, n: nat) returns (m: nat)
    requires IsRun(win, states, steps) && n < |states| && Base(states, steps, n) > 0
    ensures m < n && steps[m].PowerFailure? && |states[m].installs| == Base(states, steps, n)
  {
    m := n - 1;
    assert StepAt(win, states, steps, m);
    if !steps[m].PowerFailure? { m := BaseIsPowerFailure(win, states, steps, m); }
  }

  function PowerFailures(steps: seq<Step>, n: nat): nat
    requires n <= |steps|
  {
    if n == 0 then 0 else PowerFailures(steps, n - 1) + if steps[n - 1].PowerFailure? then 1 else 0
  }

  lemma CountSplits(s: seq<Hash>, base: nat, h: Hash)
    requires base <= |s| && NoDup(s[base..])
    ensures multiset(s)[h] <= multiset(s[..base])[h] + 1
  {
    assert s == s[..base] + s[base..];
    NoDupMultiset(s[base..], h);
  }

  lemma {:induction false} CountBeforeBase(win: bool, states: seq<State>, steps: seq<Step>, n: nat, h: Hash)
    requires IsRun(win, states, steps) && n < |states|
    ensures Base(states, steps, n) <= |states[n].installs|
    ensures multiset(states[n].installs[..Base(states, steps, n)])[h] <= PowerFailures(steps, n)
  {
    EveryStateIsRecent(win, states, steps, n);
    if n > 0 {
      var base := Base(states, steps, n - 1);
      CountBeforeBase(win, states, steps, n - 1, h);
      EveryStateIsRecent(win, states, steps, n - 1);
      InstallsStay(win, states, steps, n - 1, n);
      if steps[n - 1].PowerFailure? {
        assert StepAt(win, states, steps, n - 1);
        CountSplits(states[n - 1].installs, base, h);
        assert states[n].installs[..|states[n].installs|] == states[n - 1].installs;
      } else {
        assert states[n].installs[..base] == states[n - 1].installs[..base];
      }
    }
  }

  /** A hash is installed at most once more often than the power failed. */
  lemma InstalledOncePerPowerCycle(win: bool, states: seq<State>, steps: seq<Step>, n: nat, h: Hash)
    requires IsRun(win, states, steps) && n < |states|
    ensures multiset(states[n].installs)[h] <= 1 + PowerFailures(steps, n)
  {
    EveryStateIsRecent(win, states, steps, n);
    CountBeforeBase(win, states, steps, n, h);
    CountSplits(states[n].installs, Base(states, steps, n), h);
  }
}
