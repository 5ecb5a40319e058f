/**
 When questions that are not urgent reach the human: together, a batch window after the first of
 them was asked, and not before.
 */
module AttentionBatches {
  import opened Outcome
  import opened Ordering
  import opened Questions
  import opened Attention
  import opened AttentionSafety

  /** A question that is not urgent is asked, and no batch is open. */
  predicate Opens(w: World, step: Step) {
    step.AdmitStep? && !step.request.priority.Blocking? && w.budget.batchOpenedAt.None?
  }

  lemma RetireKeepsBatch(b: Budget, id: Id, e: Entries, now: int)
    ensures Retire(b, id, e, now).batchOpenedAt == b.batchOpenedAt
  {
  }

  /** A batch that is open was open before, or is opened by this step. */
  lemma BatchStep(limits: Limits, w: World, step: Step, w': World)
    requires Next(limits, w, step, w') && w'.budget.batchOpenedAt.Some?
    ensures w'.budget.batchOpenedAt == if Opens(w, step) then Some(w.now) else w.budget.batchOpenedAt
  {
    match step
    case RetireStep(x) => RetireKeepsBatch(w.budget, x, w.entries, w.now);
    case LastLeaveStep(x, waiter) => RetireKeepsBatch(RemoveWaiter(w.budget, x, waiter), x, w.entries, w.now);
    case _ =>
  }

  /** An open batch was opened when a question that is not urgent was asked, and has been open ever since. */
  lemma {:induction false} BatchHasOpened(limits: Limits, worlds: seq<World>, steps: seq<Step>, n: nat) returns (m: nat)
    requires IsRun(limits, worlds, steps) && n < |worlds| && worlds[n].budget.batchOpenedAt.Some?
    ensures m < n && Opens(worlds[m], steps[m])
    ensures forall k :: m < k <= n ==> worlds[k].budget.batchOpenedAt == Some(worlds[m].now)
  {
    m := n - 1;
    assert StepAt(limits, worlds, steps, m);
    BatchStep(limits, worlds[m], steps[m], worlds[n]);
    if !Opens(worlds[m], steps[m]) { m := BatchHasOpened(limits, worlds, steps, m); }
  }

  /**
   A question that is not urgent is handed out only when a batch has been open for the whole window,
   since a question of its kind was asked.
   */
  lemma HeldBackForTheWindow(limits: Limits, worlds: seq<World>, steps: seq<Step>, n: nat, id: Id) returns (m: nat)
    requires IsRun(limits, worlds, steps) && n < |steps| && steps[n].PresentStep? && id in steps[n].order
    requires id in worlds[n].budget.tracked && !worlds[n].budget.tracked[id].priority.Blocking?
    ensures m < n && Opens(worlds[m], steps[m])
    ensures worlds[m].now + 1_000_000 * limits.batchWindowMs <= worlds[n].now
    ensures forall k :: m < k <= n ==> worlds[k].budget.batchOpenedAt == Some(worlds[m].now)
    ensures worlds[n + 1].budget.batchOpenedAt.None?
  {
    assert StepAt(limits, worlds, steps, n);
    assert IsDue(worlds[n].budget, steps[n].seen, worlds[n].now, limits, id);
    m := BatchHasOpened(limits, worlds, steps, n);
  }

  // ----- a question that need not wait for a whole window -----

  function Asked(id: Id, r: Request, now: int): Question {
    Question(id, r.kind, r.asker, r.answerer, "c", r.text, r.options, Pending, now, None, r.irreversible,
        r.defaultAnswer,
             None, None)
  }

  predicate Ordinary(r: Request) {
    ValidRequest(r) && r.priority.Normal?
  }

  lemma OneAsked(limits: Limits, r: Request, a: Id, waiter: string, first: int, second: int) returns (w: World)
    requires Ordinary(r) && first <= second
    ensures Reachable(limits, w)
    ensures w == World(map[a := Asked(a, r, first)], {a}, second, Admit(EMPTY_BUDGET, a, r, waiter, first), [], [])
  {
    var none: Entries := map[];
    var w0 := World(none, {}, first, EMPTY_BUDGET, [], []);
    InitIsReachable(limits, w0);
    var e := map[a := Asked(a, r, first)];
    AdmitReachable(limits, w0, a, r, waiter, e);
    var w1 := w0.(entries := e, used := {} + {a}, budget := Admit(w0.budget, a, r, waiter, first));
    ServiceReachable(limits, w1, w1.used, e, second);
    w := w1.(now := second);
  }

  /** Two questions are asked, the second a moment later. */
  lemma TwoAsked(limits: Limits, r1: Request, r2: Request, a: Id, b: Id, waiter: string, first: int, second: int)
    returns (w: World)
    requires Ordinary(r1) && Ordinary(r2) && KeyOf(r1) != KeyOf(r2) && a != b && first <= second
    ensures Reachable(limits, w) && w.now == second && w.budget.batchOpenedAt == Some(first)
    ensures w.entries == map[a := Asked(a, r1, first), b := Asked(b, r2, second)] && w.used == {a, b}
    ensures w.budget.tracked.Keys == {a, b} && w.budget.retired == [] && w.budget.expiredDefaults == []
    ensures !w.budget.tracked[b].presented && w.budget.tracked[b].priority.Normal?
  {
    var w1 := OneAsked(limits, r1, a, waiter, first, second);
    var e := map[a := Asked(a, r1, first), b := Asked(b, r2, second)];
    AdmitReachable(limits, w1, b, r2, waiter, e);
    w := w1.(entries := e, used := w1.used + {b}, budget := Admit(w1.budget, b, r2, waiter, second));
  }

  /**
   The window runs from the first question of a batch: once that one is gone, another may be handed
   out although it was asked less than a window ago and is the only one there is.
   */
  lemma LaterQuestionNeedNotWait(limits: Limits, r1: Request, r2: Request, a: Id, b: Id, waiter: string, window: int)
    returns (w: World)
    requires Ordinary(r1) && Ordinary(r2) && KeyOf(r1) != KeyOf(r2) && a != b
    requires window == 1_000_000 * limits.batchWindowMs && window > 0
    ensures Reachable(limits, w) && w.budget.tracked.Keys == {b} && b in w.entries && w.entries[b].state.Pending?
    ensures IsDue(w.budget, w.entries, w.now, limits, b) && !w.budget.tracked[b].priority.Blocking?
    ensures w.now < w.entries[b].askedAt + window
  {
    var w2 := TwoAsked(limits, r1, r2, a, b, waiter, 0, 1);
    var e := w2.entries[a := w2.entries[a].(state := Rejected)];
    ServiceReachable(limits, w2, w2.used, e, window);
    var w3 := w2.(entries := e, now := window);
    RetireReachable(limits, w3, a);
    w := w3.(budget := Retire(w3.budget, a, e, window));
  }
}
