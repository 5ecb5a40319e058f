/** The attention budget as the engine holds it: one object whose methods update it under a mutex. */
module AttentionBudgets {
  import opened Outcome
  import opened Ordering
  import opened Questions
  import opened Attention
  import opened AttentionSafety

  class AttentionBudget {
    const questions: QuestionRegistry
    const limits: Limits
    var byKey: map<DedupKey, Id>
    var tracked: map<Id, Tracked>
    var batchOpenedAt: Option<int>
    var retired: seq<Retired>
    var expiredDefaults: seq<ExpiredDefault>

    // every id ever registered, the latest time seen, and what was handed out so far
    ghost var used: set<Id>
    ghost var now: int
    ghost var handed: seq<Id>
    ghost var emitted: seq<ExpiredDefault>

    function State(): Budget
      reads this
    {
      Budget(byKey, tracked, batchOpenedAt, retired, expiredDefaults)
    }

    ghost function Here(): World
      reads this, questions
    {
      World(questions.entries, used, now, State(), handed, emitted)
    }

    /** The object is always in a state some run of the machine reaches. */
    ghost predicate Valid()
      reads this, questions
    {
      questions.Valid() && Reachable(limits, Here())
    }

    constructor (questions: QuestionRegistry, limits: Limits, ghost now: int)
      requires questions.Valid()
      ensures Valid() && State() == EMPTY_BUDGET && handed == [] && emitted == []
      ensures this.questions == questions && this.limits == limits && this.now == now
    {
      this.questions, this.limits := questions, limits;
      byKey, tracked, batchOpenedAt, retired, expiredDefaults := map[], map[], None, [], [];
      used, this.now, handed, emitted := questions.entries.Keys, now, [], [];
      new;
      InitIsReachable(limits, Here());
    }

    /** `retire` */
    method RetireQuestion(id: Id, t: int)
      modifies this`byKey, this`tracked, this`retired, this`expiredDefaults
      ensures State() == Retire(old(State()), id, questions.entries, t)
    {
      if id !in tracked { return; }
      var question := tracked[id];
      tracked := tracked - {id};
      byKey := byKey - {question.key};
      if id !in questions.entries { return; }
      var q := questions.entries[id];
      var owed := DefaultFor(question, q);
      retired := retired + [Retired(q, question.scope, question.priority, question.origin, question.waiters,
                                    question.presented, t, owed)];
      expiredDefaults := expiredDefaults + if owed.Some? then [owed.value] else [];
      while |retired| > SETTLED_HISTORY
        invariant byKey == old(byKey) - {question.key} && tracked == old(tracked) - {id}
        invariant TrimHistory(retired, expiredDefaults)
               == TrimHistory(old(retired) + [Retired(q, question.scope, question.priority, question.origin,
                                                      question.waiters, question.presented, t, owed)],
                              old(expiredDefaults) + if owed.Some? then [owed.value] else [])
      {
        var first := retired[0].expiredDefault;
        retired := retired[1..];
        if first.Some? { expiredDefaults := Forget(expiredDefaults, first.value.questionId); }
      }
    }

    /** What the service holds after it applied every deadline and forgot what it holds too much of. */
    ghost predicate ServiceExpired(before: Entries, t: int, after: Entries) {
      PrunedTo(ExpireEntries(before, t), questions.maxPending, after)
    }

    /** `questions.expire(now)` */
    method ExpireQuestions(t: int)
      requires Valid() && now <= t
      modifies this`now, questions`entries
      ensures Valid() && now == t && ServiceExpired(old(questions.entries), t, questions.entries)
    {
      ghost var before := Here();
      ReachableFacts(limits, before);
      questions.Expire(t, used);
      now := t;
      ServiceReachable(limits, before, used, questions.entries, t);
    }

    /** The retiring half of `sweep`. */
    method RetireSettled(t: int) returns (order: seq<Id>)
      requires Valid() && now == t
      modifies this`byKey, this`tracked, this`retired, this`expiredDefaults
      ensures Valid() && ListsSettled(order, old(State()), questions.entries)
      ensures State() == RetireAll(old(State()), order, questions.entries, t)
      ensures forall id :: id in tracked ==> !Settled(questions.entries, id)
    {
      var todo := set id | id in tracked && Settled(questions.entries, id);
      order := [];
      while todo != {}
        invariant Valid()
        invariant State() == RetireAll(old(State()), order, questions.entries, t)
        invariant NoDup(order)
        invariant forall id :: id in tracked <==> id in old(tracked) && id !in order
        invariant forall id :: id in todo <==> id in tracked && Settled(questions.entries, id)
        invariant forall id :: id in order ==> id in old(tracked) && Settled(questions.entries, id)
        decreases todo
      {
        var id :| id in todo;
        RetireReachable(limits, Here(), id);
        RetireAllAppend(old(State()), order, id, questions.entries, t);
        RetireQuestion(id, t);
        order := order + [id];
        todo := todo - {id};
      }
    }

    lemma {:induction false} RetireAllAppend(b: Budget, order: seq<Id>, id: Id, e: Entries, t: int)
      ensures RetireAll(b, order + [id], e, t) == Retire(RetireAll(b, order, e, t), id, e, t)
      decreases |order|
    {
      if order == [] {
        assert order + [id] == [id];
        assert RetireAll(b, [id], e, t) == RetireAll(Retire(b, id, e, t), [], e, t);
      } else {
        assert (order + [id])[1..] == order[1..] + [id];
        RetireAllAppend(Retire(b, order[0], e, t), order[1..], id, e, t);
      }
    }

    /** `sweep`: forget settled questions so an identical one opens a fresh prompt. */
    method SweepSettled(t: int) returns (ghost s: SweepRecord)
      requires Valid() && now <= t
      modifies this`byKey, this`tracked, this`batchOpenedAt, this`retired, this`expiredDefaults, this`now,
               questions`entries
      ensures Valid() && now == t
      ensures IsSweep(old(State()), s, t) && State() == s.after && questions.entries == s.entries
      ensures ServiceExpired(old(questions.entries), t, s.entries)
    {
      ExpireQuestions(t);
      s := ForgetSettled(t);
    }

    /** The rest of `sweep`, on the service as it is: retire, and close a batch nothing waits for. */
    method ForgetSettled(t: int) returns (ghost s: SweepRecord)
      requires Valid() && now == t
      modifies this`byKey, this`tracked, this`batchOpenedAt, this`retired, this`expiredDefaults
      ensures Valid() && IsSweep(old(State()), s, t) && State() == s.after && s.entries == questions.entries
    {
      var order := RetireSettled(t);
      CloseBatchReachable(limits, Here());
      RecordSweep(old(State()), order, questions.entries, t, State());
      s := SweepRecord(order, questions.entries, CloseBatch(State()));
      if !exists id :: id in tracked && AwaitsBatch(tracked[id]) { batchOpenedAt := None; }
    }

    lemma RecordSweep(b: Budget, order: seq<Id>, e: Entries, t: int, retired: Budget)
      requires ListsSettled(order, b, e) && retired == RetireAll(b, order, e, t)
               && forall id :: id in retired.tracked ==> !Settled(e, id)
      ensures IsSweep(b, SweepRecord(order, e, CloseBatch(retired)), t)
    {
    }

    /** What `join` does and answers on the swept budget `b`; `after` is the budget it leaves. */
    ghost predicate JoinOutcome(b: Budget, request: Request, waiter: string, t: int, freshId: Id,
                                refusal: Option<QuestionError>,
                                r: Result<Admission, AttentionError>, after: Budget)
    {
      if KeyOf(request) in b.byKey then
        var id := b.byKey[KeyOf(request)];
        && id in b.tracked && after == Share(b, id, request, waiter)
        && r == Ok(Admission(id, true, |b.tracked[id].waiters + {waiter}|))
      else if request.priority.Low? && |b.tracked| >= limits.maxOutstanding then
        after == b && r == Err(Backpressure(|b.tracked|, limits.maxOutstanding))
      else if refusal.Some? then
        after == b && r == Err(QuestionFailed(refusal.value))
      else
        r == Ok(Admission(freshId, false, 1)) && after == Admit(b, freshId, request, waiter, t)
    }

    /** Why the service would not take the question, if it would not. */
    ghost function RefusalOf(request: Request, t: int, correlation: string, id: Id, e: Entries): Option<QuestionError> {
      var seconds := if request.defaultAnswer.Some? then limits.defaultTimeoutSecs else questions.defaultExpirySecs;
      var q := Draft(request.kind, request.asker, request.answerer, correlation, request.text, request.options,
                     request.irreversible, request.defaultAnswer, seconds, id, t);
      AskRefusal(e, t, q, seconds, questions.maxExpirySecs, questions.maxPending)
    }

    /**
     `join`: share the live question with the same dedup key, or be refused when the human is
     saturated, or ask a new one. `freshId` is the identifier the service would draw.
     */
    method Join(request: Request, waiter: string, t: int, correlation: string, freshId: Id)
      returns (r: Result<Admission, AttentionError>, ghost s: SweepRecord)
      requires Valid() && now <= t && freshId !in used
      modifies this`byKey, this`tracked, this`batchOpenedAt, this`retired, this`expiredDefaults, this`now, this`used,
               questions`entries
      ensures Valid()
      ensures !ValidRequest(request) || Blank(waiter) ==> r == Err(Invalid) && State() == old(State())
      ensures ValidRequest(request) && !Blank(waiter) ==>
                && now == t && IsSweep(old(State()), s, t) && ServiceExpired(old(questions.entries), t, s.entries)
                && JoinOutcome(s.after, request, waiter, t, freshId,
                   RefusalOf(request, t, correlation, freshId, s.entries), r, State())
    {
      s := SweepRecord([], map[], State());
      if !ValidRequest(request) || Blank(waiter) { return Err(Invalid), s; }
      s := SweepSettled(t);
      r := JoinSwept(request, waiter, t, correlation, freshId);
    }

    /** `join` on a budget that has just been swept. */
    method JoinSwept(request: Request, waiter: string, t: int, correlation: string, freshId: Id)
      returns (r: Result<Admission, AttentionError>)
      requires Valid() && now == t && freshId !in used && ValidRequest(request)
      modifies this`byKey, this`tracked, this`batchOpenedAt, this`used, questions`entries
      ensures Valid()
      ensures JoinOutcome(old(State()), request, waiter, t, freshId,
              RefusalOf(request, t, correlation, freshId, old(questions.entries)), r, State())
    {
      ReachableFacts(limits, Here());
      if KeyOf(request) in byKey {
        var admission := ShareQuestion(byKey[KeyOf(request)], request, waiter);
        return Ok(admission);
      }
      if request.priority.Low? && |tracked| >= limits.maxOutstanding {
        return Err(Backpressure(|tracked|, limits.maxOutstanding));
      }
      r := AskQuestion(request, waiter, t, correlation, freshId);
    }

    /** The deduplicated half of `join`: a joined waiter costs the human nothing. */
    method ShareQuestion(id: Id, request: Request, waiter: string) returns (admission: Admission)
      requires Valid() && ValidRequest(request)
      requires KeyOf(request) in byKey && byKey[KeyOf(request)] == id && id in tracked
      modifies this`tracked
      ensures Valid() && State() == Share(old(State()), id, request, waiter)
      ensures admission == Admission(id, true, |old(tracked)[id].waiters + {waiter}|)
    {
      ShareReachable(limits, Here(), id, request, waiter);
      var live := tracked[id];
      live := live.(waiters := live.waiters + {waiter});
      if request.delivery.Some? && (waiter, request.delivery.value) !in live.deliveries {
        live := live.(deliveries := live.deliveries + [(waiter, request.delivery.value)]);
      }
      live := live.(priority := Higher(live.priority, request.priority));
      tracked := tracked[id := live];
      admission := Admission(id, true, |live.waiters|);
    }

    /** The asking half of `join`. */
    method AskQuestion(request: Request, waiter: string, t: int, correlation: string, id: Id)
      returns (r: Result<Admission, AttentionError>)
      requires Valid() && now == t && id !in used && ValidRequest(request) && KeyOf(request) !in byKey
      requires request.priority.Low? ==> |tracked| < limits.maxOutstanding
      modifies this`byKey, this`tracked, this`batchOpenedAt, this`used, questions`entries
      ensures Valid()
      ensures var refusal := RefusalOf(request, t, correlation, id, old(questions.entries));
              if refusal.Some? then r == Err(QuestionFailed(refusal.value)) && State() == old(State())
              else r == Ok(Admission(id, false, 1)) && State() == Admit(old(State()), id, request, waiter, t)
    {
      ghost var before := Here();
      ReachableFacts(limits, before);
      var asked := questions.Ask(request.kind, request.asker, request.answerer, correlation, request.text,
                                 request.options, request.irreversible, request.defaultAnswer,
                                 if request.defaultAnswer.Some? then Some(limits.defaultTimeoutSecs) else None,
                                 id, t, used);
      if asked.Err? {
        ServiceReachable(limits, before, used, questions.entries, t);
        return Err(QuestionFailed(asked.error));
      }
      AdmitReachable(limits, before, id, request, waiter, questions.entries);
      Track(id, request, waiter, t);
      return Ok(Admission(id, false, 1));
    }

    /** The new question becomes live with its first waiter. */
    method Track(id: Id, request: Request, waiter: string, t: int)
      modifies this`byKey, this`tracked, this`batchOpenedAt, this`used
      ensures State() == Admit(old(State()), id, request, waiter, t) && used == old(used) + {id}
    {
      if !request.priority.Blocking? && batchOpenedAt.None? { batchOpenedAt := Some(t); }
      byKey := byKey[KeyOf(request) := id];
      tracked := tracked[id := Tracked(KeyOf(request), request.scope, request.priority, waiter, {waiter},
                                       if request.delivery.Some? then [(waiter, request.delivery.value)] else [],
                                       false)];
      used := used + {id};
    }

    /** `leave`: only the last waiter to go cancels a shared question. */
    method Leave(id: Id, waiter: string, t: int) returns (r: Result<nat, AttentionError>)
      requires Valid() && now <= t
      modifies this`byKey, this`tracked, this`retired, this`expiredDefaults, this`now, questions`entries
      ensures Valid()
      ensures id !in old(tracked) ==> r == Err(NotTracked) && State() == old(State())
      ensures id in old(tracked) ==> r == Ok(|old(tracked)[id].waiters - {waiter}|)
      ensures id in old(tracked) && old(tracked)[id].waiters - {waiter} != {} ==>
                State() == RemoveWaiter(old(State()), id, waiter)
      ensures id in old(tracked) && old(tracked)[id].waiters - {waiter} == {} ==>
                && Settled(questions.entries, id) && CancelledFrom(old(questions.entries), id, t, questions.entries)
                && State() == Retire(RemoveWaiter(old(State()), id, waiter), id, questions.entries, t)
    {
      if id !in tracked { return Err(NotTracked); }
      var rest := tracked[id].waiters - {waiter};
      if |rest| > 0 {
        LeaveReachable(limits, Here(), id, waiter);
        tracked := tracked[id := tracked[id].(waiters := rest)];
        return Ok(|rest|);
      }
      CancelQuestion(id, t);
      LastLeaveReachable(limits, Here(), id, waiter);
      tracked := tracked[id := tracked[id].(waiters := rest)];
      RetireQuestion(id, t);
      return Ok(0);
    }

    /** What the service holds after the asker cancelled question `id`. */
    ghost predicate CancelledFrom(before: Entries, id: Id, t: int, after: Entries) {
      if id !in before then after == before
      else
        var e := ExpireEntries(before, t);
        after == AfterSettlement(e, id, Settlement(e, id, before[id].asker, true, Cancelled, None, t))
    }

    /** Ask the service to cancel; if somebody settled the question first, that settlement stands. */
    method CancelQuestion(id: Id, t: int)
      requires Valid() && now <= t
      modifies this`now, questions`entries
      ensures Valid() && now == t && Settled(questions.entries, id)
              && CancelledFrom(old(questions.entries), id, t, questions.entries)
    {
      ghost var before := Here();
      ReachableFacts(limits, before);
      if id in questions.entries {
        var cancelled := questions.Settle(id, questions.entries[id].asker, true, Cancelled, None, t, used);
        assert id in questions.entries ==> Later(before.entries[id], questions.entries[id]);
        ServiceReachable(limits, before, used, questions.entries, t);
      } else {
        ServiceUnchanged(before, t);
      }
      now := t;
    }

    lemma ServiceUnchanged(w: World, t: int)
      requires Reachable(limits, w) && w.now <= t
      ensures Reachable(limits, w.(now := t))
    {
      ReachableFacts(limits, w);
      ServiceReachable(limits, w, w.used, w.entries, t);
    }

    /** The due prompts of a budget, in ranking order. */
    ghost predicate IsDueList(b: Budget, e: Entries, t: int, ids: seq<Id>, due: seq<Prompt>) {
      && NoDup(ids) && (forall id :: id in ids <==> IsDue(b, e, t, limits, id))
      && |due| == |ids|
      && (forall p :: p in due <==> exists id :: id in ids && IsDue(b, e, t, limits, id) && p == PromptFor(b, e, id))
      && SortedBy(RanksBefore, due)
    }

    /** The prompts as the human gets them: the most stalled work first, each with what was asked and for whom. */
    lemma PromptsShow(b: Budget, e: Entries, t: int, ids: seq<Id>, due: seq<Prompt>)
      requires IsDueList(b, e, t, ids, due)
      ensures forall i, j :: 0 <= i < j < |due| ==> StallsMore(due[i], due[j])
      ensures forall p :: p in due ==>
              exists id :: id in ids && id in e && id in b.tracked && Shows(p, e[id], b.tracked[id])
    {
      forall i, j | 0 <= i < j < |due| ensures StallsMore(due[i], due[j]) { assert RanksBefore(due[i], due[j]); }
      forall p | p in due
        ensures exists id :: id in ids && id in e && id in b.tracked && Shows(p, e[id], b.tracked[id])
      {
        var id :| id in ids && IsDue(b, e, t, limits, id) && p == PromptFor(b, e, id);
        assert Shows(p, e[id], b.tracked[id]);
      }
    }

    /**
     `take_due`: exactly the due questions, each now presented, most stalled work first. What is
     left unseen is neither blocking nor older than the batch window.
     */
    method TakeDue(t: int) returns (due: seq<Prompt>, ghost s: SweepRecord, ghost ids: seq<Id>)
      requires Valid() && now <= t
      modifies this, questions`entries
      ensures Valid() && now == t && emitted == old(emitted)
      ensures IsSweep(old(State()), s, t) && questions.entries == s.entries
      ensures ServiceExpired(old(questions.entries), t, s.entries)
      ensures IsDueList(s.after, s.entries, t, ids, due)
      ensures State() == Present(s.after, s.entries, t, limits) && handed == old(handed) + ids
      ensures forall id :: id in tracked && !tracked[id].presented ==>
                && id in s.entries && !tracked[id].priority.Blocking?
                && t < s.entries[id].askedAt + limits.batchWindowMs * NANOS_PER_MILLI
      ensures forall i, j :: 0 <= i < j < |due| ==> StallsMore(due[i], due[j])
      ensures forall p :: p in due ==> exists id :: id in ids && id in s.entries && id in s.after.tracked
                                                   && Shows(p, s.entries[id], s.after.tracked[id])
    {
      s := SweepSettled(t);
      var listed, prompts := ListDue(t);
      ids := listed;
      PresentReachable(limits, Here(), ids);
      MarkPresented(t);
      handed := handed + ids;
      due := prompts;
      PromptsShow(s.after, s.entries, t, ids, due);
    }

    method MarkPresented(t: int)
      modifies this`tracked, this`batchOpenedAt
      ensures State() == Present(old(State()), questions.entries, t, limits)
    {
      var batchDue := BatchDue(State(), t, limits);
      tracked := map id | id in tracked ::
                   if IsDue(State(), questions.entries, t, limits, id)
                   then tracked[id].(presented := true) else tracked[id];
      if batchDue { batchOpenedAt := None; }
    }

    /** The loop of `take_due` that collects the prompts, and their ranking. */
    method ListDue(t: int) returns (ids: seq<Id>, due: seq<Prompt>)
      ensures IsDueList(State(), questions.entries, t, ids, due)
    {
      var todo := DueIds(State(), questions.entries, t, limits);
      var prompts: seq<Prompt> := [];
      ids := [];
      while todo != {}
        invariant NoDup(ids) && todo <= DueIds(State(), questions.entries, t, limits)
        invariant forall id :: id in ids <==> id in DueIds(State(), questions.entries, t, limits) - todo
        invariant |prompts| == |ids|
        invariant forall i :: 0 <= i < |ids| ==> IsDue(State(), questions.entries, t, limits, ids[i])
                                                 && prompts[i] == PromptFor(State(), questions.entries, ids[i])
        decreases todo
      {
        var id :| id in todo;
        prompts := prompts + [PromptFor(State(), questions.entries, id)];
        assert id !in ids;
        ids := ids + [id];
        todo := todo - {id};
      }
      due := SortBy(RanksBefore, prompts);
      RanksBeforeIsTotalPreorder();
      SortBySorts(RanksBefore, prompts);
      SamePrompts(State(), questions.entries, t, due, prompts, ids);
    }

    lemma SamePrompts(b: Budget, e: Entries, t: int, due: seq<Prompt>, prompts: seq<Prompt>, ids: seq<Id>)
      requires multiset(due) == multiset(prompts) && |prompts| == |ids|
      requires forall i :: 0 <= i < |ids| ==> IsDue(b, e, t, limits, ids[i]) && prompts[i] == PromptFor(b, e, ids[i])
      ensures |due| == |ids|
      ensures forall p :: p in due <==> exists id :: id in ids && IsDue(b, e, t, limits, id) && p == PromptFor(b, e, id)
    {
      assert |due| == |multiset(due)| == |multiset(prompts)|;
      forall p ensures p in due <==> exists id :: id in ids && IsDue(b, e, t, limits, id) && p == PromptFor(b, e, id) {
        InSameMultiset(due, prompts, p);
        if p in prompts {
          var i :| 0 <= i < |prompts| && prompts[i] == p;
          assert ids[i] in ids;
        }
        if id :| id in ids && IsDue(b, e, t, limits, id) && p == PromptFor(b, e, id) {
          var i :| 0 <= i < |ids| && ids[i] == id;
          assert prompts[i] == p;
        }
      }
    }

    /** `take_expired_defaults`: everything owed whose deadline has passed, all of it safe to apply. */
    method TakeExpiredDefaults(t: int) returns (due: seq<ExpiredDefault>, ghost s: SweepRecord)
      requires Valid() && now <= t
      modifies this, questions`entries
      ensures Valid() && now == t && handed == old(handed)
      ensures IsSweep(old(State()), s, t) && ServiceExpired(old(questions.entries), t, s.entries)
      ensures due == DefaultsDue(s.after.expiredDefaults, t)
      ensures State() == s.after.(expiredDefaults := DefaultsPending(s.after.expiredDefaults, t))
      ensures emitted == old(emitted) + due
      ensures forall d :: d in due ==> d.priority.Low? && !d.irreversible && d.expiresAt <= t
    {
      s := SweepSettled(t);
      DrainReachable(limits, Here());
      due := DrainDefaults(t);
      emitted := emitted + due;
    }

    method DrainDefaults(t: int) returns (due: seq<ExpiredDefault>)
      modifies this`expiredDefaults
      ensures due == DefaultsDue(old(expiredDefaults), t)
      ensures expiredDefaults == DefaultsPending(old(expiredDefaults), t)
    {
      due := [];
      var pending: seq<ExpiredDefault> := [];
      while expiredDefaults != []
        invariant due + DefaultsDue(expiredDefaults, t) == DefaultsDue(old(expiredDefaults), t)
        invariant pending + DefaultsPending(expiredDefaults, t) == DefaultsPending(old(expiredDefaults), t)
        decreases |expiredDefaults|
      {
        var candidate := expiredDefaults[0];
        Assoc(due, [candidate], DefaultsDue(expiredDefaults[1..], t));
        Assoc(pending, [candidate], DefaultsPending(expiredDefaults[1..], t));
        expiredDefaults := expiredDefaults[1..];
        if candidate.expiresAt <= t {
          due := due + [candidate];
        } else {
          pending := pending + [candidate];
        }
      }
      expiredDefaults := pending;
    }
  }
}
