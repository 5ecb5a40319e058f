/**
 How the outcome of a release gets into the ledger: consent comes before the effect, a refusal is
 recorded as one, and what the installer did is what the claim says from then on.
 */
module ReleaseOutcomes {
  import opened ReleaseClaims
  import opened ReleaseHistory

  /** The step is one of run `r`. */
  predicate OfRun(step: Step, r: RunId) {
    !step.PowerFailure? && step.r == r
  }

  /** A run is changed only by its own steps, and ended by a power failure. */
  lemma OthersStay(win: bool, s: State, step: Step, s': State, q: RunId)
    requires Next(win, s, step, s') && !OfRun(step, q)
    ensures q in s'.runs <==> q in s.runs
    ensures q in s.runs ==> s'.runs[q] == if step.PowerFailure? then s.runs[q].(pc := Ended) else s.runs[q]
  {
  }

  /** The steps of a run past the effect change nothing of it but where it is, and only forward. */
  lemma OwnLateStep(win: bool, s: State, step: Step, s': State, r: RunId)
    requires Next(win, s, step, s') && OfRun(step, r) && r in s.runs
    requires s.runs[r].pc.Dispatched? || s.runs[r].pc.SaveFlushing? || s.runs[r].pc.Ended?
    ensures r in s'.runs && s'.runs[r] == s.runs[r].(pc := s'.runs[r].pc)
    ensures s'.runs[r].pc.Ended? || (s.runs[r].pc.Dispatched? && s'.runs[r].pc.SaveFlushing?)
  {
  }

  // ----- consent -----

  /** The run has been prepared and is not over. */
  predicate Prepared(pc: Pc) {
    !pc.Checking? && !pc.Preparing? && !pc.Ended?
  }

  lemma OwnPreparedStep(win: bool, s: State, step: Step, s': State, r: RunId)
    requires Next(win, s, step, s') && OfRun(step, r) && r in s'.runs && Prepared(s'.runs[r].pc) && !step.Prepare?
    ensures r in s.runs && Prepared(s.runs[r].pc)
    ensures s.runs[r].artifactDigest == s'.runs[r].artifactDigest && s.runs[r].consent == s'.runs[r].consent
  {
  }

  lemma PreparedStep(win: bool, s: State, step: Step, s': State, r: RunId)
    requires Next(win, s, step, s') && r in s'.runs && Prepared(s'.runs[r].pc)
    requires !(step.Prepare? && step.r == r)
    ensures r in s.runs && Prepared(s.runs[r].pc)
    ensures s.runs[r].artifactDigest == s'.runs[r].artifactDigest && s.runs[r].consent == s'.runs[r].consent
  {
    if OfRun(step, r) { OwnPreparedStep(win, s, step, s', r); } else { OthersStay(win, s, step, s', r); }
  }

  /** What a run knows of the artifact and of the user's consent is what its preparation found out. */
  lemma {:induction false} PreparedBy(win: bool, states: seq<State>, steps: seq<Step>, n: nat, r: RunId)
    returns (m: nat)
    requires IsRun(win, states, steps) && n < |states| && r in states[n].runs && Prepared(states[n].runs[r].pc)
    ensures m < n && steps[m] == Prepare(r, states[n].runs[r].artifactDigest, states[n].runs[r].consent)
  {
    m := n - 1;
    assert StepAt(win, states, steps, m);
    if !(steps[m].Prepare? && steps[m].r == r) {
      PreparedStep(win, states[m], steps[m], states[n], r);
      m := PreparedBy(win, states, steps, m, r);
    }
  }

  /** An installer is called only by a run whose user has consented, for the artifact that was prepared. */
  lemma ConsentPrecedesEffect(win: bool, states: seq<State>, steps: seq<Step>, n: nat) returns (m: nat)
    requires IsRun(win, states, steps) && n < |steps| && steps[n].Install?
    ensures steps[n].r in states[n].runs && m < n
    ensures steps[m] == Prepare(steps[n].r, states[n].runs[steps[n].r].artifactDigest, true)
  {
    EveryStateKeepsInv(win, states, steps, n);
    assert StepAt(win, states, steps, n);
    assert RunOk(ModeAt(win, steps, n), states[n], steps[n].r);
    m := PreparedBy(win, states, steps, n, steps[n].r);
  }

  /** A run whose user refused ends with a claim that says so, durable but on Windows. */
  lemma RefusalIsRecorded(win: bool, states: seq<State>, steps: seq<Step>, n: nat) returns (m: nat)
    requires IsRun(win, states, steps) && n < |steps| && steps[n].Unlock? && steps[n].r in states[n].runs
    requires !states[n].runs[steps[n].r].consent
    ensures m < n && steps[m] == Prepare(steps[n].r, states[n].runs[steps[n].r].artifactDigest, false)
    ensures var run := states[n].runs[steps[n].r];
            var h, c := run.key.preparedHash, Claim(run.key, run.artifactDigest, Declined);
            && h in states[n + 1].view && states[n + 1].view[h] == c && h in states[n + 1].flushed
            && (!win ==> h in states[n + 1].disk && states[n + 1].disk[h] == c)
  {
    EveryStateKeepsInv(win, states, steps, n);
    assert StepAt(win, states, steps, n);
    assert RunOk(ModeAt(win, steps, n), states[n], steps[n].r);
    m := PreparedBy(win, states, steps, n, steps[n].r);
  }

  // ----- from the installer to the ledger -----

  /** The installer was called for this run, and this is what it did. */
  ghost predicate HasRun(s: State, r: RunId, key: Key, digest: string, returned: bool) {
    && r in s.runs && s.runs[r].key == key && s.runs[r].artifactDigest == digest
    && (s.runs[r].pc.Dispatched? || s.runs[r].pc.SaveFlushing? || s.runs[r].pc.Ended?)
    && (s.runs[r].pc.Dispatched? ==> s.runs[r].returned == returned)
  }

  lemma HasRunStep(win: bool, s: State, step: Step, s': State, r: RunId, key: Key, digest: string, returned: bool)
    requires Next(win, s, step, s') && HasRun(s, r, key, digest, returned)
    ensures HasRun(s', r, key, digest, returned)
  {
    if OfRun(step, r) { OwnLateStep(win, s, step, s', r); } else { OthersStay(win, s, step, s', r); }
  }

  lemma {:induction false} HasRunSince(win: bool, states: seq<State>, steps: seq<Step>, i: nat, n: nat, r: RunId)
    requires IsRun(win, states, steps) && i < n < |states| && steps[i].Install? && steps[i].r == r
    ensures r in states[i].runs
    ensures HasRun(states[n], r, states[i].runs[r].key, states[i].runs[r].artifactDigest, steps[i].returned)
  {
    if i + 1 < n {
      HasRunSince(win, states, steps, i, n - 1, r);
      assert StepAt(win, states, steps, n - 1);
      HasRunStep(win, states[n - 1], steps[n - 1], states[n], r, states[i].runs[r].key,
          states[i].runs[r].artifactDigest,
                 steps[i].returned);
    } else {
      assert StepAt(win, states, steps, i);
    }
  }

  // ----- what was saved stays -----

  /** The ledger says `c` of this hash, and nobody is about to say anything else. */
  ghost predicate Says(s: State, h: Hash, c: Content) {
    && h in s.view && s.view[h] == c && h in s.flushed
    && forall q :: q in s.runs && Created(s.runs[q].pc) && HashOf(s, q) == h ==> s.runs[q].pc.SaveFlushing?
  }

  lemma LedgerStays(win: bool, s: State, step: Step, s': State, h: Hash, c: Content)
    requires Next(win, s, step, s') && Says(s, h, c) && !step.PowerFailure?
    ensures h in s'.view && s'.view[h] == c && h in s'.flushed
  {
  }

  lemma OwnMakerStep(win: bool, s: State, step: Step, s': State, q: RunId, h: Hash)
    requires Next(win, s, step, s') && OfRun(step, q) && h in s.view
    requires q in s.runs && Created(s.runs[q].pc) && HashOf(s, q) == h ==> s.runs[q].pc.SaveFlushing?
    ensures q in s'.runs && Created(s'.runs[q].pc) && HashOf(s', q) == h ==> s'.runs[q].pc.SaveFlushing?
  {
  }

  lemma SaysStep(win: bool, s: State, step: Step, s': State, h: Hash, c: Content)
    requires Next(win, s, step, s') && Says(s, h, c) && !step.PowerFailure?
    ensures Says(s', h, c)
  {
    LedgerStays(win, s, step, s', h, c);
    forall q | q in s'.runs && Created(s'.runs[q].pc) && HashOf(s', q) == h ensures s'.runs[q].pc.SaveFlushing? {
      if OfRun(step, q) { OwnMakerStep(win, s, step, s', q, h); } else { OthersStay(win, s, step, s', q); }
    }
  }

  lemma DurableStep(win: bool, s: State, step: Step, s': State, h: Hash, c: Content)
    requires Next(win, s, step, s') && Says(s, h, c) && h in s.disk && s.disk[h] == c
    ensures Says(s', h, c) && h in s'.disk && s'.disk[h] == c
  {
    if !step.PowerFailure? { SaysStep(win, s, step, s', h, c); }
  }

  lemma {:induction false} SaysSince(win: bool, states: seq<State>, steps: seq<Step>, i: nat, n: nat, h: Hash,
                                     c: Content)
    requires IsRun(win, states, steps) && i <= n < |states| && Says(states[i], h, c)
    requires forall k :: i <= k < n ==> !steps[k].PowerFailure?
    ensures Says(states[n], h, c)
  {
    if i < n {
      SaysSince(win, states, steps, i, n - 1, h, c);
      assert StepAt(win, states, steps, n - 1);
      SaysStep(win, states[n - 1], steps[n - 1], states[n], h, c);
    }
  }

  lemma {:induction false} DurableSince(win: bool, states: seq<State>, steps: seq<Step>, i: nat, n: nat, h: Hash,
                                        c: Content)
    requires IsRun(win, states, steps) && i <= n < |states| && Says(states[i], h, c)
    requires h in states[i].disk && states[i].disk[h] == c
    ensures Says(states[n], h, c) && h in states[n].disk && states[n].disk[h] == c
  {
    if i < n {
      DurableSince(win, states, steps, i, n - 1, h, c);
      assert StepAt(win, states, steps, n - 1);
      DurableStep(win, states[n - 1], steps[n - 1], states[n], h, c);
    }
  }

  /** The claim of a run after its installer was called and its outcome saved. */
  function Outcome(run: Run, returned: bool): Content {
    Claim(run.key, run.artifactDigest, if returned then InstallerReturned else OutcomeUnknown)
  }

  lemma SavedSays(win: bool, states: seq<State>, steps: seq<Step>, i: nat, j: nat, r: RunId)
    requires IsRun(win, states, steps) && i < j < |steps| && steps[i].Install? && steps[i].r == r && steps[j] == Save(r)
    ensures r in states[i].runs
    ensures Says(states[j + 1], HashOf(states[i], r), Outcome(states[i].runs[r], steps[i].returned))
  {
    HasRunSince(win, states, steps, i, j, r);
    EveryStateKeepsInv(win, states, steps, j);
    EveryStateKeepsInv(win, states, steps, j + 1);
    assert StepAt(win, states, steps, j);
    assert RunOk(ModeAt(win, steps, j), states[j], r);
  }

  /**
   What the installer did is what the ledger says: once run `r` has saved, its claim says that the
   installer returned exactly if it did, up to the next power failure.
   */
  lemma OutcomeIsRecorded(win: bool, states: seq<State>, steps: seq<Step>, i: nat, j: nat, n: nat, r: RunId)
    requires IsRun(win, states, steps) && i < j < n < |states|
    requires steps[i].Install? && steps[i].r == r && steps[j] == Save(r)
    requires forall k :: j < k < n ==> !steps[k].PowerFailure?
    ensures r in states[i].runs
    ensures var h := HashOf(states[i], r);
            h in states[n].view && states[n].view[h] == Outcome(states[i].runs[r], steps[i].returned)
  {
    SavedSays(win, states, steps, i, j, r);
    SaysSince(win, states, steps, j + 1, n, HashOf(states[i], r), Outcome(states[i].runs[r], steps[i].returned));
  }

  /** ... and elsewhere than on Windows for good, once its directory is flushed. */
  lemma OutcomeIsDurable(states: seq<State>, steps: seq<Step>, i: nat, j: nat, f: nat, n: nat, r: RunId)
    requires IsRun(false, states, steps) && i < j < f < n < |states|
    requires steps[i].Install? && steps[i].r == r && steps[j] == Save(r) && steps[f] == SaveFlush(r)
    ensures r in states[i].runs
    ensures var h, c := HashOf(states[i], r), Outcome(states[i].runs[r], steps[i].returned);
            h in states[n].view && states[n].view[h] == c && h in states[n].disk && states[n].disk[h] == c
  {
    var h, c := RunsUntilFlush(states, steps, i, j, f, r);
    DurableSince(false, states, steps, f + 1, n, h, c);
  }

  lemma RunsUntilFlush(states: seq<State>, steps: seq<Step>, i: nat, j: nat, f: nat, r: RunId)
    returns (h: Hash, c: Content)
    requires IsRun(false, states, steps) && i < j < f < |steps|
    requires steps[i].Install? && steps[i].r == r && steps[j] == Save(r) && steps[f] == SaveFlush(r)
    ensures r in states[i].runs && h == HashOf(states[i], r) && c == Outcome(states[i].runs[r], steps[i].returned)
    ensures Says(states[f + 1], h, c) && h in states[f + 1].disk && states[f + 1].disk[h] == c
  {
    SavedSays(false, states, steps, i, j, r);
    h, c := HashOf(states[i], r), Outcome(states[i].runs[r], steps[i].returned);
    assert StepAt(false, states, steps, j) && StepAt(false, states, steps, f);
    NoPowerFailureBefore(states, steps, j + 1, f, r);
    SaysSince(false, states, steps, j + 1, f, h, c);
    SaysStep(false, states[f], steps[f], states[f + 1], h, c);
  }

  /** A run that still has to flush has not been through a power failure. */
  lemma {:induction false} NoPowerFailureBefore(states: seq<State>, steps: seq<Step>, i: nat, n: nat, r: RunId)
    requires IsRun(false, states, steps) && i <= n < |states| && r in states[i].runs && At(states[n], r, SaveFlushing)
    requires states[i].runs[r].pc.SaveFlushing?
    ensures forall k :: i <= k < n ==> !steps[k].PowerFailure?
  {
    if i < n {
      assert StepAt(false, states, steps, n - 1);
      StillFlushing(states, steps, i, n - 1, r);
      FlushingStep(false, states[n - 1], steps[n - 1], states[n], r);
      NoPowerFailureBefore(states, steps, i, n - 1, r);
    }
  }

  /** From saving on a run can only be flushing or over. */
  lemma {:induction false} StillFlushing(states: seq<State>, steps: seq<Step>, i: nat, n: nat, r: RunId)
    requires IsRun(false, states, steps) && i <= n < |states| && r in states[i].runs
             && states[i].runs[r].pc.SaveFlushing?
    ensures r in states[n].runs && (states[n].runs[r].pc.SaveFlushing? || states[n].runs[r].pc.Ended?)
  {
    if i < n {
      StillFlushing(states, steps, i, n - 1, r);
      assert StepAt(false, states, steps, n - 1);
      FlushingStep(false, states[n - 1], steps[n - 1], states[n], r);
    }
  }

  lemma FlushingStep(win: bool, s: State, step: Step, s': State, r: RunId)
    requires Next(win, s, step, s') && r in s.runs && (s.runs[r].pc.SaveFlushing? || s.runs[r].pc.Ended?)
    ensures r in s'.runs && (s'.runs[r].pc.SaveFlushing? || s'.runs[r].pc.Ended?)
    ensures s'.runs[r].pc.SaveFlushing? ==> s.runs[r].pc.SaveFlushing? && !step.PowerFailure?
  {
    if OfRun(step, r) { OwnLateStep(win, s, step, s', r); } else { OthersStay(win, s, step, s', r); }
  }
}
