/**
 Who shares a question with whom: exactly the requests that ask the same of the same human in the
 same scope and with the same stakes, over every run.
 */
module AttentionSharing {
  import opened Outcome
  import opened Ordering
  import opened Questions
  import opened QuestionLaws
  import opened Attention
  import opened AttentionSafety

  // ----- what is materially identical -----

  /** Same scope, same kind, same human, same words, same options and the same stakes. */
  predicate SameQuestion(r: Request, q: Request) {
    && r.scope == q.scope && r.kind == q.kind && r.answerer == q.answerer && Words(r.text) == Words(q.text)
    && r.options == q.options && r.irreversible == q.irreversible && r.defaultAnswer == q.defaultAnswer
  }

  /** Two requests have one dedup key exactly when they are materially identical. */
  lemma KeyIdentifiesRequests(r: Request, q: Request)
    ensures KeyOf(r) == KeyOf(q) <==> SameQuestion(r, q)
  {
    NormalizeIdentifiesWords(r.text, q.text);
  }

  /** Why a request is turned away: something is not named, or a default nobody may take for an answer. */
  lemma InvalidRequestIs(r: Request)
    ensures !ValidRequest(r)
       <==> || !HasText(r.scope.project) || !HasText(r.scope.privacy)
            || !HasText(r.asker) || !HasText(r.answerer) || !HasText(r.text)
            || (r.defaultAnswer.Some?
                && (!r.priority.Low? || r.irreversible || r.kind in {PlanApproval, PermissionEscalation}))
  {
    BlankIs(r.scope.project);
    BlankIs(r.scope.privacy);
    BlankIs(r.asker);
    BlankIs(r.answerer);
    BlankIs(r.text);
  }

  predicate AllSpace(s: string) {
    forall i :: 0 <= i < |s| ==> IsSpace(s[i])
  }

  /** Leading white space makes no difference ... */
  lemma {:induction false} BlanksAreSkipped(blank: string, s: string)
    requires AllSpace(blank)
    ensures Words(blank + s) == Words(s)
  {
    if blank == "" {
      assert blank + s == s;
    } else {
      assert (blank + s)[1..] == blank[1..] + s;
      BlanksAreSkipped(blank[1..], s);
    }
  }

  /** ... and white space ends a word, however much of it there is. */
  lemma WordsAreSeparated(word: string, blank: string, s: string)
    requires IsWord(word) && AllSpace(blank) && (blank != "" || s == "")
    ensures Words(word + blank + s) == [word] + Words(s)
  {
    var rest := blank + s;
    assert word + blank + s == word + rest;
    WordLengthOf(word, rest);
    assert (word + rest)[..|word|] == word && (word + rest)[|word|..] == rest;
    BlanksAreSkipped(blank, s);
  }

  // ----- how a live question changes -----

  function Rank(p: Priority): nat {
    match p
    case Low => 0
    case Normal => 1
    case Blocking => 2
  }

  lemma HigherIsGreater(p: Priority, q: Priority)
    ensures Rank(Higher(p, q)) == if Rank(p) >= Rank(q) then Rank(p) else Rank(q)
  {
  }

  /** Run `waiter` joins question `id` with a request, as the first or as another. */
  predicate Joins(step: Step, id: Id) {
    (step.AdmitStep? || step.ShareStep?) && step.id == id
  }

  /** What a step that is no join leaves of a live question. */
  predicate Kept(t: Tracked, t': Tracked) {
    && t'.key == t.key && t'.scope == t.scope && t'.origin == t.origin && t'.priority == t.priority
    && t'.waiters <= t.waiters && t'.deliveries == t.deliveries
  }

  lemma RetireKeepsOthers(b: Budget, id: Id, e: Entries, now: int, x: Id)
    requires x in Retire(b, id, e, now).tracked
    ensures x in b.tracked && Retire(b, id, e, now).tracked[x] == b.tracked[x]
  {
  }

  lemma OtherStepKeeps(limits: Limits, w: World, step: Step, w': World, id: Id)
    requires Next(limits, w, step, w') && id in w'.budget.tracked && !Joins(step, id)
    ensures id in w.budget.tracked && Kept(w.budget.tracked[id], w'.budget.tracked[id])
  {
    match step
    case RetireStep(x) => RetireKeepsOthers(w.budget, x, w.entries, w.now, id);
    case LastLeaveStep(x, waiter) => RetireKeepsOthers(RemoveWaiter(w.budget, x, waiter), x, w.entries, w.now, id);
    case _ =>
  }

  lemma ShareStepKeeps(limits: Limits, w: World, id: Id, r: Request, waiter: string, w': World)
    requires MapsInverse(w.budget) && Next(limits, w, ShareStep(id, r, waiter), w')
    ensures id in w.budget.tracked && id in w'.budget.tracked && w.budget.tracked[id].key == KeyOf(r)
    ensures var t, t' := w.budget.tracked[id], w'.budget.tracked[id];
            && t'.key == t.key && t'.scope == t.scope && t'.origin == t.origin
            && Rank(t'.priority) == (if Rank(t.priority) >= Rank(r.priority) then Rank(t.priority)
               else Rank(r.priority))
            && t'.waiters == t.waiters + {waiter}
            && forall x ::
              x in t'.deliveries <==> x in t.deliveries || (r.delivery.Some? && x == (waiter, r.delivery.value))
  {
    HigherIsGreater(w.budget.tracked[id].priority, r.priority);
  }

  /** The first request of a question decides what it is. */
  lemma AdmitStepMakes(limits: Limits, w: World, id: Id, r: Request, waiter: string, w': World)
    requires Next(limits, w, AdmitStep(id, r, waiter), w')
    ensures id in w'.budget.tracked && id in w'.entries && Represents(w'.entries[id], r)
    ensures var t := w'.budget.tracked[id];
            && t.key == KeyOf(r) && t.scope == r.scope && t.origin == waiter && t.priority == r.priority
            && t.waiters == {waiter}
               && forall x :: x in t.deliveries <==> r.delivery.Some? && x == (waiter, r.delivery.value)
  {
  }

  lemma EntriesKeep(limits: Limits, w: World, step: Step, w': World, id: Id, r: Request)
    requires Next(limits, w, step, w') && id in w.used && !(step.AdmitStep? && step.id == id)
    requires id in w.entries ==> Represents(w.entries[id], r)
    ensures id in w'.entries ==> Represents(w'.entries[id], r)
  {
  }

  // ----- over every run -----

  /** What is needed of the invariant here. */
  ghost predicate Filed(w: World) {
    MapsInverse(w.budget) && w.budget.tracked.Keys <= w.used
  }

  ghost function Moves(limits: Limits): iset<(World, Step, World)> {
    iset m: (World, Step, World) | Next(limits, m.0, m.1, m.2)
  }

  lemma StepMoves(limits: Limits, worlds: seq<World>, steps: seq<Step>, n: nat)
    requires IsRun(limits, worlds, steps) && n < |steps|
    ensures (worlds[n], steps[n], worlds[n + 1]) in Moves(limits) && Filed(worlds[n])
  {
    StepFacts(limits, worlds, steps, n);
  }

  lemma StepFacts(limits: Limits, worlds: seq<World>, steps: seq<Step>, n: nat)
    requires IsRun(limits, worlds, steps) && n < |steps|
    ensures Filed(worlds[n]) && Next(limits, worlds[n], steps[n], worlds[n + 1])
  {
    RunKeepsInv(limits, worlds, steps, n);
    assert StepAt(limits, worlds, steps, n);
  }

  /** The live question is the one that this request, by this run, asked for. */
  predicate AsksFor(w: World, id: Id, r: Request, waiter: string) {
    && id in w.budget.tracked && w.budget.tracked[id].key == KeyOf(r) && w.budget.tracked[id].scope == r.scope
    && w.budget.tracked[id].origin == waiter && (id in w.entries ==> Represents(w.entries[id], r))
  }

  lemma AsksForStep(limits: Limits, w: World, step: Step, w': World, id: Id, r: Request, waiter: string)
    requires Filed(w) && Next(limits, w, step, w') && AsksFor(w, id, r, waiter) && id in w'.budget.tracked
    requires !(step.AdmitStep? && step.id == id)
    ensures AsksFor(w', id, r, waiter)
  {
    EntriesKeep(limits, w, step, w', id, r);
    if step.ShareStep? && step.id == id {
      ShareStepKeeps(limits, w, id, step.request, step.waiter, w');
    } else {
      OtherStepKeeps(limits, w, step, w', id);
    }
  }

  /** Every live question was asked for by one request, and is put to the human as that request said. */
  lemma {:induction false} QuestionHasAsker(limits: Limits, worlds: seq<World>, steps: seq<Step>, n: nat, id: Id)
    returns (a: nat)
    requires IsRun(limits, worlds, steps) && n < |worlds| && id in worlds[n].budget.tracked
    ensures a < n && steps[a].AdmitStep? && steps[a].id == id
    ensures AsksFor(worlds[n], id, steps[a].request, steps[a].waiter)
  {
    a := n - 1;
    StepFacts(limits, worlds, steps, a);
    var w, step, w' := worlds[a], steps[a], worlds[n];
    if step.AdmitStep? && step.id == id {
      AdmitStepMakes(limits, w, id, step.request, step.waiter, w');
    } else {
      if Joins(step, id) {
        ShareStepKeeps(limits, w, id, step.request, step.waiter, w');
      } else {
        OtherStepKeeps(limits, w, step, w', id);
      }
      a := QuestionHasAsker(limits, worlds, steps, a, id);
      AsksForStep(limits, w, step, w', id, steps[a].request, steps[a].waiter);
    }
  }

  /** Every run that waits for a question joined it with a request of its key. */
  lemma {:induction false} WaiterHasJoined(limits: Limits, worlds: seq<World>, steps: seq<Step>, n: nat, id: Id,
                                           waiter: string)
    returns (m: nat)
    requires IsRun(limits, worlds, steps) && n < |worlds| && id in worlds[n].budget.tracked
    requires waiter in worlds[n].budget.tracked[id].waiters
    ensures m < n && Joins(steps[m], id) && steps[m].waiter == waiter
    ensures KeyOf(steps[m].request) == worlds[n].budget.tracked[id].key
  {
    m := n - 1;
    StepFacts(limits, worlds, steps, m);
    var w, step, w' := worlds[m], steps[m], worlds[n];
    if step.AdmitStep? && step.id == id {
      AdmitStepMakes(limits, w, id, step.request, step.waiter, w');
    } else if Joins(step, id) {
      ShareStepKeeps(limits, w, id, step.request, step.waiter, w');
      if step.waiter != waiter { m := WaiterHasJoined(limits, worlds, steps, m, id, waiter); }
    } else {
      OtherStepKeeps(limits, w, step, w', id);
      m := WaiterHasJoined(limits, worlds, steps, m, id, waiter);
    }
  }

  /**
   All who wait for one question asked the same of the same human, and that is what the human is
   asked.
   */
  lemma WaitersAskTheSame(limits: Limits, worlds: seq<World>, steps: seq<Step>, n: nat, id: Id, waiter: string)
    returns (a: nat, m: nat)
    requires IsRun(limits, worlds, steps) && n < |worlds| && id in worlds[n].budget.tracked
    requires waiter in worlds[n].budget.tracked[id].waiters
    ensures a < n && steps[a].AdmitStep? && steps[a].id == id && m < n && Joins(steps[m], id)
            && steps[m].waiter == waiter
    ensures SameQuestion(steps[m].request, steps[a].request)
    ensures id in worlds[n].entries ==> Represents(worlds[n].entries[id], steps[a].request)
  {
    a := QuestionHasAsker(limits, worlds, steps, n, id);
    m := WaiterHasJoined(limits, worlds, steps, n, id, waiter);
    KeyIdentifiesRequests(steps[m].request, steps[a].request);
  }

  /** A question is shared by everybody who asks the same while it is live, and by nobody else. */
  lemma SharedExactlyWhenSame(limits: Limits, worlds: seq<World>, steps: seq<Step>, n: nat, id: Id, r: Request)
    returns (a: nat)
    requires IsRun(limits, worlds, steps) && n < |worlds| && id in worlds[n].budget.tracked
    ensures a < n && steps[a].AdmitStep? && steps[a].id == id
    ensures KeyOf(r) in worlds[n].budget.byKey && worlds[n].budget.byKey[KeyOf(r)] == id
       <==> SameQuestion(r, steps[a].request)
  {
    a := QuestionHasAsker(limits, worlds, steps, n, id);
    RunKeepsInv(limits, worlds, steps, n);
    KeyIdentifiesRequests(r, steps[a].request);
  }

  /** Ids once used stay used, so no question is asked for twice under one id. */
  lemma {:induction false} UsedStays(limits: Limits, worlds: seq<World>, steps: seq<Step>, m: nat, n: nat)
    requires IsRun(limits, worlds, steps) && m <= n < |worlds|
    ensures worlds[m].used <= worlds[n].used
  {
    if m < n {
      UsedStays(limits, worlds, steps, m, n - 1);
      assert StepAt(limits, worlds, steps, n - 1);
    }
  }

  /** What one step makes of the urgency of a live question. */
  lemma PriorityStep(limits: Limits, w: World, step: Step, w': World, id: Id)
    requires Filed(w) && Next(limits, w, step, w') && id in w'.budget.tracked && !(step.AdmitStep? && step.id == id)
    ensures id in w.budget.tracked
    ensures var p, p' := Rank(w.budget.tracked[id].priority), Rank(w'.budget.tracked[id].priority);
            p' == if Joins(step, id) && Rank(step.request.priority) > p then Rank(step.request.priority) else p
  {
    if Joins(step, id) {
      ShareStepKeeps(limits, w, id, step.request, step.waiter, w');
    } else {
      OtherStepKeeps(limits, w, step, w', id);
    }
  }

  lemma JoinStep(limits: Limits, w: World, step: Step, w': World, id: Id)
    requires Filed(w) && (w, step, w') in Moves(limits) && Joins(step, id)
    ensures id in w'.used && id in w'.budget.tracked
    ensures Rank(step.request.priority) <= Rank(w'.budget.tracked[id].priority)
  {
    if step.AdmitStep? {
      AdmitStepMakes(limits, w, id, step.request, step.waiter, w');
    } else {
      ShareStepKeeps(limits, w, id, step.request, step.waiter, w');
    }
  }

  lemma JoinedIsUsed(limits: Limits, worlds: seq<World>, steps: seq<Step>, k: nat, m: nat, id: Id)
    requires IsRun(limits, worlds, steps) && k < m < |worlds| && Joins(steps[k], id)
    ensures id in worlds[m].used
  {
    StepMoves(limits, worlds, steps, k);
    JoinStep(limits, worlds[k], steps[k], worlds[k + 1], id);
    UsedStays(limits, worlds, steps, k + 1, m);
  }

  /** A live question is at least as urgent as every request that joined it ... */
  lemma {:induction false} PriorityIsAtLeast(limits: Limits, worlds: seq<World>, steps: seq<Step>, k: nat, n: nat,
                                             id: Id)
    requires IsRun(limits, worlds, steps) && k < n < |worlds| && id in worlds[n].budget.tracked && Joins(steps[k], id)
    ensures Rank(steps[k].request.priority) <= Rank(worlds[n].budget.tracked[id].priority)
  {
    var w, step, w' := worlds[n - 1], steps[n - 1], worlds[n];
    StepMoves(limits, worlds, steps, n - 1);
    if k == n - 1 {
      JoinStep(limits, w, step, w', id);
    } else {
      JoinedIsUsed(limits, worlds, steps, k, n - 1, id);
      UsedPriorityStep(limits, w, step, w', id);
      PriorityIsAtLeast(limits, worlds, steps, k, n - 1, id);
    }
  }

  lemma UsedPriorityStep(limits: Limits, w: World, step: Step, w': World, id: Id)
    requires Filed(w) && (w, step, w') in Moves(limits) && id in w.used && id in w'.budget.tracked
    ensures id in w.budget.tracked
    ensures Rank(w.budget.tracked[id].priority) <= Rank(w'.budget.tracked[id].priority)
  {
    PriorityStep(limits, w, step, w', id);
  }

  /** ... and exactly as urgent as one of them. */
  lemma {:induction false} PriorityIsThatOf(limits: Limits, worlds: seq<World>, steps: seq<Step>, n: nat, id: Id)
    returns (m: nat)
    requires IsRun(limits, worlds, steps) && n < |worlds| && id in worlds[n].budget.tracked
    ensures m < n && Joins(steps[m], id) && steps[m].request.priority == worlds[n].budget.tracked[id].priority
  {
    m := n - 1;
    StepFacts(limits, worlds, steps, m);
    if steps[m].AdmitStep? && steps[m].id == id {
      AdmitStepMakes(limits, worlds[m], id, steps[m].request, steps[m].waiter, worlds[n]);
    } else {
      PriorityStep(limits, worlds[m], steps[m], worlds[n], id);
      if !Joins(steps[m], id) || Rank(worlds[m].budget.tracked[id].priority) >= Rank(steps[m].request.priority) {
        m := PriorityIsThatOf(limits, worlds, steps, m, id);
      }
    }
  }
}
