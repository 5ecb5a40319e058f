/** What every run of the attention budget keeps, whatever the threads and the service do. */
module AttentionSafety {
  import opened Outcome
  import opened Ordering
  import opened Questions
  import opened Attention

  // ----- what "materially identical" text means -----

  lemma {:induction false} WordLengthOf(w: string, rest: string)
    requires (forall i :: 0 <= i < |w| ==> !IsSpace(w[i])) && (rest == "" || IsSpace(rest[0]))
    ensures WordLength(w + rest) == |w|
  {
    if w != "" {
      assert (w + rest)[1..] == w[1..] + rest;
      WordLengthOf(w[1..], rest);
    } else {
      assert w + rest == rest;
    }
  }

  lemma {:induction false} WordsOfJoined(ws: seq<string>)
    requires forall i :: 0 <= i < |ws| ==> IsWord(ws[i])
    ensures Words(JoinWords(ws)) == ws
  {
    if |ws| == 1 {
      WordLengthOf(ws[0], "");
      assert ws[0] + "" == ws[0] && ws[0][..|ws[0]|] == ws[0] && ws == [ws[0]];
    } else if |ws| > 1 {
      var s, rest := JoinWords(ws), " " + JoinWords(ws[1..]);
      assert s == ws[0] + rest;
      WordLengthOf(ws[0], rest);
      assert s[..|ws[0]|] == ws[0] && s[|ws[0]|..] == rest && rest[1..] == JoinWords(ws[1..]);
      WordsOfJoined(ws[1..]);
    }
  }

  /** Two texts deduplicate exactly when they have the same words; normalizing again changes nothing. */
  lemma NormalizeIdentifiesWords(a: string, b: string)
    ensures Normalize(a) == Normalize(b) <==> Words(a) == Words(b)
    ensures Normalize(Normalize(a)) == Normalize(a)
  {
    WordsOfJoined(Words(a));
    WordsOfJoined(Words(b));
  }

  // ----- the invariant -----

  /** The two maps are inverse to each other: one live question per dedup key. */
  ghost predicate MapsInverse(b: Budget) {
    && (forall k :: k in b.byKey ==> b.byKey[k] in b.tracked && b.tracked[b.byKey[k]].key == k)
    && (forall id :: id in b.tracked ==> b.tracked[id].key in b.byKey && b.byKey[b.tracked[id].key] == id)
  }

  /** Every live question has a waiter, no (waiter, delivery) pair twice, and a default only if low stakes. */
  ghost predicate TrackedOk(t: Tracked) {
    && t.waiters != {} && NoDup(t.deliveries)
    && (t.key.defaultAnswer.Some? ==> t.priority.Low? && !t.key.irreversible && !ApprovalKind(t.key.kind))
  }

  ghost predicate AllTrackedOk(b: Budget) {
    forall id :: id in b.tracked ==> TrackedOk(b.tracked[id])
  }

  function LowIds(b: Budget): set<Id> {
    set id | id in b.tracked && b.tracked[id].priority.Low?
  }

  /** The live questions are known to the service under the stakes they were asked with. */
  ghost predicate Linked(w: World) {
    && w.budget.tracked.Keys <= w.used && w.entries.Keys <= w.used && SoundEntries(w.entries)
    && (forall id :: id in w.budget.tracked && id in w.entries ==>
          w.entries[id].defaultAnswer == w.budget.tracked[id].key.defaultAnswer)
  }

  function DefaultsOf(history: seq<Retired>): seq<ExpiredDefault> {
    if history == [] then []
    else (if history[0].expiredDefault.Some? then [history[0].expiredDefault.value] else [])
         + DefaultsOf(history[1..])
  }

  function RetiredIds(history: seq<Retired>): (ids: seq<Id>)
    ensures |ids| == |history|
    ensures forall i :: 0 <= i < |ids| ==> ids[i] == history[i].question.id
  {
    seq(|history|, i requires 0 <= i < |history| => history[i].question.id)
  }

  /** A default may be applied without consent only when this holds of it. */
  predicate SafeDefault(d: ExpiredDefault) {
    d.priority.Low? && !d.irreversible
  }

  ghost predicate EntryOk(r: Retired) {
    r.expiredDefault.Some? ==> r.expiredDefault.value.questionId == r.question.id && SafeDefault(r.expiredDefault.value)
  }

  ghost predicate HistoryOk(history: seq<Retired>, owed: seq<ExpiredDefault>) {
    && NoDup(RetiredIds(history))
    && (forall i :: 0 <= i < |history| ==> EntryOk(history[i]))
    && Subsequence(owed, DefaultsOf(history))
  }

  ghost predicate HistoryApart(w: World) {
    forall i :: 0 <= i < |w.budget.retired| ==>
      w.budget.retired[i].question.id in w.used && w.budget.retired[i].question.id !in w.budget.tracked
  }

  /** Whatever only a batch can present finds the batch open since no later than its own ask. */
  ghost predicate BatchCovers(w: World, id: Id)
    requires id in w.budget.tracked
  {
    AwaitsBatch(w.budget.tracked[id]) && !Settled(w.entries, id) ==>
      w.budget.batchOpenedAt.Some? && w.budget.batchOpenedAt.value <= w.entries[id].askedAt
  }

  ghost predicate BatchOk(w: World) {
    && (w.budget.batchOpenedAt.Some? ==> w.budget.batchOpenedAt.value <= w.now)
    && (forall id :: id in w.budget.tracked ==> BatchCovers(w, id))
  }

  /** A live question is marked presented exactly when it has been handed out. */
  ghost predicate HandedOk(w: World) {
    && NoDup(w.handed)
    && (forall id :: id in w.handed ==> id in w.used)
    && (forall id :: id in w.budget.tracked ==> (w.budget.tracked[id].presented <==> id in w.handed))
  }

  ghost predicate DistinctIds(ds: seq<ExpiredDefault>) {
    forall i, j :: 0 <= i < j < |ds| ==> ds[i].questionId != ds[j].questionId
  }

  /** What was emitted is safe, is about distinct retired questions, and is no longer owed. */
  ghost predicate EmittedOk(w: World) {
    && DistinctIds(w.emitted)
    && (forall d :: d in w.emitted ==> SafeDefault(d) && d.questionId in w.used && d.questionId !in w.budget.tracked)
    && (forall d, o :: d in w.emitted && o in w.budget.expiredDefaults ==> d.questionId != o.questionId)
  }

  ghost predicate Inv(limits: Limits, w: World) {
    && MapsInverse(w.budget) && AllTrackedOk(w.budget)
    && |LowIds(w.budget)| <= limits.maxOutstanding
    && Linked(w)
    && |w.budget.retired| <= SETTLED_HISTORY
    && HistoryOk(w.budget.retired, w.budget.expiredDefaults) && HistoryApart(w)
    && BatchOk(w) && HandedOk(w) && EmittedOk(w)
  }

  // ----- owed defaults and history -----

  lemma {:induction false} DefaultsOfAppend(history: seq<Retired>, r: Retired)
    ensures DefaultsOf(history + [r])
         == DefaultsOf(history) + if r.expiredDefault.Some? then [r.expiredDefault.value] else []
  {
    if history != [] {
      assert (history + [r])[1..] == history[1..] + [r];
      DefaultsOfAppend(history[1..], r);
    } else {
      assert history + [r] == [r];
    }
  }

  lemma {:induction false} DefaultsComeFromHistory(history: seq<Retired>, d: ExpiredDefault)
    requires d in DefaultsOf(history)
    ensures exists i :: 0 <= i < |history| && history[i].expiredDefault == Some(d)
  {
    if history[0].expiredDefault == Some(d) {
    } else {
      DefaultsComeFromHistory(history[1..], d);
      var i :| 0 <= i < |history[1..]| && history[1..][i].expiredDefault == Some(d);
      assert history[i + 1].expiredDefault == Some(d);
    }
  }

  /** Owed defaults are safe, and each names a question still in the history. */
  lemma OwedComeFromHistory(history: seq<Retired>, owed: seq<ExpiredDefault>, d: ExpiredDefault)
    requires HistoryOk(history, owed) && d in owed
    ensures SafeDefault(d)
    ensures exists i :: 0 <= i < |history| && history[i].question.id == d.questionId
                        && history[i].expiredDefault == Some(d)
  {
    SubsequenceMember(owed, DefaultsOf(history), d);
    DefaultsComeFromHistory(history, d);
    var i :| 0 <= i < |history| && history[i].expiredDefault == Some(d);
    assert EntryOk(history[i]);
  }

  lemma {:induction false} DefaultsOfDistinct(history: seq<Retired>)
    requires NoDup(RetiredIds(history)) && forall i :: 0 <= i < |history| ==> EntryOk(history[i])
    ensures DistinctIds(DefaultsOf(history))
  {
    if history != [] {
      var rest, first := history[1..], history[0].expiredDefault;
      TailIds(history);
      DefaultsOfDistinct(rest);
      forall d | d in DefaultsOf(rest) ensures d.questionId != history[0].question.id {
        DefaultsComeFromHistory(rest, d);
        var i :| 0 <= i < |rest| && rest[i].expiredDefault == Some(d);
        assert EntryOk(history[i + 1]);
        assert RetiredIds(history)[0] != RetiredIds(history)[i + 1];
      }
      assert EntryOk(history[0]);
      assert [] + DefaultsOf(rest) == DefaultsOf(rest);
    }
  }

  lemma TailIds(history: seq<Retired>)
    requires history != []
    ensures RetiredIds(history[1..]) == RetiredIds(history)[1..]
    ensures NoDup(RetiredIds(history)) ==> NoDup(RetiredIds(history[1..]))
  {
  }

  lemma {:induction false} SubsequenceDistinct(a: seq<ExpiredDefault>, b: seq<ExpiredDefault>)
    requires Subsequence(a, b) && DistinctIds(b)
    ensures DistinctIds(a)
  {
    if a != [] {
      if a[0] == b[0] {
        SubsequenceDistinct(a[1..], b[1..]);
        forall d | d in a[1..] ensures d.questionId != a[0].questionId { SubsequenceMember(a[1..], b[1..], d); }
      } else {
        SubsequenceDistinct(a, b[1..]);
      }
    }
  }

  lemma OwedDistinct(history: seq<Retired>, owed: seq<ExpiredDefault>)
    requires HistoryOk(history, owed)
    ensures DistinctIds(owed)
  {
    DefaultsOfDistinct(history);
    SubsequenceDistinct(owed, DefaultsOf(history));
  }

  lemma {:induction false} ForgetAbsent(ds: seq<ExpiredDefault>, id: Id)
    requires forall i :: 0 <= i < |ds| ==> ds[i].questionId != id
    ensures Forget(ds, id) == ds
  {
    if ds != [] { ForgetAbsent(ds[1..], id); }
  }

  lemma {:induction false} ForgetIsSubsequence(ds: seq<ExpiredDefault>, id: Id)
    ensures Subsequence(Forget(ds, id), ds)
  {
    if ds != [] {
      if ds[0].questionId == id {
        SubsequenceReflexive(ds[1..]);
        if ds[1..] != [] && ds[1] == ds[0] { SubsequenceTail(ds[1..], ds[1..]); }
      } else {
        ForgetIsSubsequence(ds[1..], id);
      }
    }
  }

  lemma {:induction false} SubsequenceReflexive<T>(s: seq<T>)
    ensures Subsequence(s, s)
  {
    if s != [] { SubsequenceReflexive(s[1..]); }
  }

  /** Evicting the oldest entry together with its owed default keeps the two queues linked. */
  lemma EvictKeepsHistory(history: seq<Retired>, owed: seq<ExpiredDefault>)
    requires history != [] && HistoryOk(history, owed)
    ensures var first := history[0].expiredDefault;
            HistoryOk(history[1..], if first.Some? then Forget(owed, first.value.questionId) else owed)
  {
    var rest := history[1..];
    var first := history[0].expiredDefault;
    TailIds(history);
    assert EntryOk(history[0]);
    if first.None? {
      assert DefaultsOf(history) == DefaultsOf(rest);
    } else {
      assert DefaultsOf(history)[1..] == DefaultsOf(rest);
      var id := first.value.questionId;
      if owed != [] && owed[0] == first.value {
        assert Forget(owed, id) == owed[1..];
      } else {
        assert Subsequence(owed, DefaultsOf(rest));
        forall i | 0 <= i < |owed| ensures owed[i].questionId != id {
          OwedComeFromHistory(rest, owed, owed[i]);
          var j :| 0 <= j < |rest| && rest[j].question.id == owed[i].questionId
            && rest[j].expiredDefault == Some(owed[i]);
          assert RetiredIds(history)[0] != RetiredIds(history)[j + 1];
        }
        ForgetAbsent(owed, id);
      }
    }
  }

  lemma {:induction false} TrimKeepsHistory(history: seq<Retired>, owed: seq<ExpiredDefault>)
    requires HistoryOk(history, owed)
    ensures var (h, d) := TrimHistory(history, owed);
            |h| <= SETTLED_HISTORY && HistoryOk(h, d) && Subsequence(d, owed)
            && (forall i :: 0 <= i < |h| ==> h[i] in history)
            && (|history| <= SETTLED_HISTORY ==> h == history && d == owed)
    decreases |history|
  {
    SubsequenceReflexive(owed);
    if |history| > SETTLED_HISTORY {
      EvictKeepsHistory(history, owed);
      var first := history[0].expiredDefault;
      var owed' := if first.Some? then Forget(owed, first.value.questionId) else owed;
      TrimKeepsHistory(history[1..], owed');
      if first.Some? { ForgetIsSubsequence(owed, first.value.questionId); }
      var (h, d) := TrimHistory(history, owed);
      SubsequenceTransitive(d, owed', owed);
    }
  }

  lemma PushKeepsHistory(history: seq<Retired>, owed: seq<ExpiredDefault>, r: Retired)
    requires HistoryOk(history, owed) && EntryOk(r)
    requires forall i :: 0 <= i < |history| ==> history[i].question.id != r.question.id
    ensures HistoryOk(history + [r], owed + if r.expiredDefault.Some? then [r.expiredDefault.value] else [])
  {
    var h := history + [r];
    DefaultsOfAppend(history, r);
    if r.expiredDefault.Some? { SubsequenceAppend(owed, DefaultsOf(history), r.expiredDefault.value); }
    assert forall i :: 0 <= i < |history| ==> RetiredIds(h)[i] == RetiredIds(history)[i];
    assert owed + [] == owed;
    assert DefaultsOf(history) + [] == DefaultsOf(history);
  }

  // ----- each step keeps the invariant -----

  lemma LaterKeepsStakes(q1: Question, q2: Question)
    requires Later(q1, q2)
    ensures q2.defaultAnswer == q1.defaultAnswer && q2.askedAt == q1.askedAt
    ensures q2.state.Pending? ==> q1.state.Pending?
  {
  }

  lemma ServiceKeepsInv(limits: Limits, w: World, w': World)
    requires Inv(limits, w) && Next(limits, w, ServiceStep, w')
    ensures Inv(limits, w')
  {
    forall id | id in w'.budget.tracked && id in w'.entries
      ensures w'.entries[id].defaultAnswer == w'.budget.tracked[id].key.defaultAnswer && BatchCovers(w', id)
    {
      LaterKeepsStakes(w.entries[id], w'.entries[id]);
      assert BatchCovers(w, id);
    }
  }

  /** The part of `Retire` that touches the two maps. */
  lemma RetireKeepsMaps(limits: Limits, w: World, id: Id, b': Budget)
    requires Inv(limits, w) && id in w.budget.tracked
    requires b'.tracked == w.budget.tracked - {id} && b'.byKey == w.budget.byKey - {w.budget.tracked[id].key}
    ensures MapsInverse(b') && AllTrackedOk(b') && |LowIds(b')| <= limits.maxOutstanding
  {
    assert LowIds(b') <= LowIds(w.budget);
    SubsetSize(LowIds(b'), LowIds(w.budget));
  }

  /** The part of `Retire` that touches the two queues, for a live question `id` seen as `t`. */
  lemma RetireKeepsQueues(limits: Limits, w: World, id: Id, t: Tracked, b': Budget)
    requires Inv(limits, w) && id in w.budget.tracked && id in w.entries
    requires t == w.budget.tracked[id].(waiters := t.waiters)
    requires b' == Retire(w.budget.(tracked := w.budget.tracked[id := t]), id, w.entries, w.now)
    ensures |b'.retired| <= SETTLED_HISTORY && HistoryOk(b'.retired, b'.expiredDefaults)
    ensures HistoryApart(w.(budget := b')) && EmittedOk(w.(budget := b'))
  {
    var b, q := w.budget, w.entries[id];
    var owed := DefaultFor(t, q);
    var r := Retired(q, t.scope, t.priority, t.origin, t.waiters, t.presented, w.now, owed);
    assert TrackedOk(b.tracked[id]) && q.id == id;
    assert EntryOk(r);
    PushKeepsHistory(b.retired, b.expiredDefaults, r);
    var defaults := b.expiredDefaults + if owed.Some? then [owed.value] else [];
    TrimKeepsHistory(b.retired + [r], defaults);
    forall i | 0 <= i < |b'.retired|
      ensures b'.retired[i].question.id in w.used && b'.retired[i].question.id !in b'.tracked
    {
      assert b'.retired[i] in b.retired + [r];
    }
    forall o | o in b'.expiredDefaults ensures o in b.expiredDefaults || o.questionId == id {
      SubsequenceMember(b'.expiredDefaults, defaults, o);
    }
  }

  lemma RetireKeepsInv(limits: Limits, w: World, id: Id)
    requires Inv(limits, w)
    ensures Inv(limits, w.(budget := Retire(w.budget, id, w.entries, w.now)))
  {
    if id in w.budget.tracked {
      var b' := Retire(w.budget, id, w.entries, w.now);
      var w' := w.(budget := b');
      RetireKeepsMaps(limits, w, id, b');
      if id in w.entries {
        assert w.budget.tracked[id := w.budget.tracked[id]] == w.budget.tracked;
        RetireKeepsQueues(limits, w, id, w.budget.tracked[id], b');
      }
      forall x | x in b'.tracked ensures BatchCovers(w', x) { assert BatchCovers(w, x); }
    }
  }

  lemma CloseBatchKeepsInv(limits: Limits, w: World)
    requires Inv(limits, w)
    ensures Inv(limits, w.(budget := CloseBatch(w.budget)))
  {
    var w' := w.(budget := CloseBatch(w.budget));
    forall id | id in w'.budget.tracked ensures BatchCovers(w', id) { assert BatchCovers(w, id); }
    assert LowIds(w'.budget) == LowIds(w.budget);
  }

  /** Changing live questions in place, without presenting any, leaves the histories as they were. */
  lemma SameKeysKeepHistories(w: World, w': World)
    requires Linked(w) && HistoryApart(w) && HandedOk(w) && EmittedOk(w)
    requires w'.used == w.used && w'.handed == w.handed && w'.emitted == w.emitted && w'.entries == w.entries
    requires w'.budget.retired == w.budget.retired && w'.budget.expiredDefaults == w.budget.expiredDefaults
    requires w'.budget.tracked.Keys == w.budget.tracked.Keys
    requires forall x :: x in w.budget.tracked ==> w'.budget.tracked[x].presented == w.budget.tracked[x].presented
                                                   && w'.budget.tracked[x].key == w.budget.tracked[x].key
    ensures Linked(w') && HistoryApart(w') && HandedOk(w') && EmittedOk(w')
  {
  }

  lemma ShareKeepsBudget(limits: Limits, b: Budget, id: Id, r: Request, waiter: string)
    requires MapsInverse(b) && AllTrackedOk(b) && |LowIds(b)| <= limits.maxOutstanding
    requires ValidRequest(r) && KeyOf(r) in b.byKey && b.byKey[KeyOf(r)] == id && id in b.tracked
    ensures var b' := Share(b, id, r, waiter);
            MapsInverse(b') && AllTrackedOk(b') && |LowIds(b')| <= limits.maxOutstanding
  {
    var b' := Share(b, id, r, waiter);
    assert TrackedOk(b.tracked[id]) && b.tracked[id].key == KeyOf(r);
    assert TrackedOk(b'.tracked[id]);
    assert LowIds(b') <= LowIds(b);
    SubsetSize(LowIds(b'), LowIds(b));
  }

  /** `b2` differs from `b` only in live questions, of which none becomes one that only a batch can present. */
  ghost predicate InPlace(b: Budget, b2: Budget) {
    && b2 == b.(tracked := b2.tracked) && b2.tracked.Keys == b.tracked.Keys
    && (forall x :: x in b.tracked ==>
       b2.tracked[x].presented == b.tracked[x].presented && b2.tracked[x].key == b.tracked[x].key)
    && (forall x :: x in b.tracked ==> (AwaitsBatch(b2.tracked[x]) ==> AwaitsBatch(b.tracked[x])))
  }

  lemma ShareIsInPlace(b: Budget, id: Id, r: Request, waiter: string)
    requires id in b.tracked
    ensures InPlace(b, Share(b, id, r, waiter))
  {
  }

  lemma LeaveIsInPlace(b: Budget, id: Id, waiter: string)
    requires id in b.tracked
    ensures InPlace(b, RemoveWaiter(b, id, waiter))
  {
  }

  lemma InPlaceKeepsBatch(w: World, b2: Budget)
    requires BatchOk(w) && InPlace(w.budget, b2)
    ensures BatchOk(w.(budget := b2))
  {
    var w' := w.(budget := b2);
    forall x | x in w'.budget.tracked ensures BatchCovers(w', x) { assert BatchCovers(w, x); }
  }

  lemma InPlaceKeepsInv(limits: Limits, w: World, b2: Budget)
    requires Inv(limits, w) && InPlace(w.budget, b2) && MapsInverse(b2) && AllTrackedOk(b2)
             && |LowIds(b2)| <= limits.maxOutstanding
    ensures Inv(limits, w.(budget := b2))
  {
    SameKeysKeepHistories(w, w.(budget := b2));
    InPlaceKeepsBatch(w, b2);
  }

  lemma ShareKeepsInv(limits: Limits, w: World, id: Id, r: Request, waiter: string)
    requires Inv(limits, w) && ValidRequest(r)
    requires KeyOf(r) in w.budget.byKey && w.budget.byKey[KeyOf(r)] == id && id in w.budget.tracked
    ensures Inv(limits, w.(budget := Share(w.budget, id, r, waiter)))
  {
    ShareKeepsBudget(limits, w.budget, id, r, waiter);
    ShareIsInPlace(w.budget, id, r, waiter);
    InPlaceKeepsInv(limits, w, Share(w.budget, id, r, waiter));
  }

  lemma AdmitKeepsMaps(b: Budget, id: Id, r: Request, waiter: string, now: int)
    requires MapsInverse(b) && id !in b.tracked && KeyOf(r) !in b.byKey
    ensures MapsInverse(Admit(b, id, r, waiter, now))
  {
  }

  lemma AdmitKeepsTracked(b: Budget, id: Id, r: Request, waiter: string, now: int)
    requires AllTrackedOk(b) && ValidRequest(r)
    ensures AllTrackedOk(Admit(b, id, r, waiter, now))
  {
    assert TrackedOk(Admit(b, id, r, waiter, now).tracked[id]);
  }

  lemma AdmitKeepsLow(limits: Limits, b: Budget, id: Id, r: Request, waiter: string, now: int)
    requires |LowIds(b)| <= limits.maxOutstanding && id !in b.tracked
    requires r.priority.Low? ==> |b.tracked| < limits.maxOutstanding
    ensures |LowIds(Admit(b, id, r, waiter, now))| <= limits.maxOutstanding
  {
    var b' := Admit(b, id, r, waiter, now);
    if r.priority.Low? {
      assert LowIds(b') == LowIds(b) + {id};
      SubsetSize(LowIds(b), b.tracked.Keys);
    } else {
      assert LowIds(b') == LowIds(b);
    }
  }

  lemma AdmitKeepsBudget(limits: Limits, b: Budget, id: Id, r: Request, waiter: string, now: int)
    requires MapsInverse(b) && AllTrackedOk(b) && |LowIds(b)| <= limits.maxOutstanding
    requires id !in b.tracked && ValidRequest(r) && KeyOf(r) !in b.byKey
    requires r.priority.Low? ==> |b.tracked| < limits.maxOutstanding
    ensures var b' := Admit(b, id, r, waiter, now);
            MapsInverse(b') && AllTrackedOk(b') && |LowIds(b')| <= limits.maxOutstanding
  {
    AdmitKeepsMaps(b, id, r, waiter, now);
    AdmitKeepsTracked(b, id, r, waiter, now);
    AdmitKeepsLow(limits, b, id, r, waiter, now);
  }

  lemma AdmitKeepsService(limits: Limits, w: World, id: Id, r: Request, waiter: string, w': World)
    requires Linked(w) && BatchOk(w) && Next(limits, w, AdmitStep(id, r, waiter), w')
    ensures Linked(w') && BatchOk(w')
  {
    var b, b' := w.budget, w'.budget;
    forall x | x in b.tracked && x in w'.entries
      ensures w'.entries[x].defaultAnswer == b'.tracked[x].key.defaultAnswer && BatchCovers(w', x)
    {
      LaterKeepsStakes(w.entries[x], w'.entries[x]);
      assert BatchCovers(w, x);
    }
    assert BatchCovers(w', id);
  }

  /** A brand-new id appears in no history. */
  lemma AdmitKeepsHistories(w: World, id: Id, w': World)
    requires HistoryApart(w) && HandedOk(w) && EmittedOk(w) && id !in w.used
    requires w'.used == w.used + {id} && w'.handed == w.handed && w'.emitted == w.emitted
    requires w'.budget.retired == w.budget.retired && w'.budget.expiredDefaults == w.budget.expiredDefaults
    requires w'.budget.tracked - {id} == w.budget.tracked
    requires id in w'.budget.tracked && !w'.budget.tracked[id].presented
    ensures HistoryApart(w') && HandedOk(w') && EmittedOk(w')
  {
    forall x | x in w'.budget.tracked && x != id
      ensures x in w.budget.tracked && w'.budget.tracked[x] == w.budget.tracked[x]
    {
      assert x in w'.budget.tracked - {id};
    }
  }

  lemma AdmitKeepsInv(limits: Limits, w: World, id: Id, r: Request, waiter: string, w': World)
    requires Inv(limits, w) && Next(limits, w, AdmitStep(id, r, waiter), w')
    ensures Inv(limits, w')
  {
    AdmitKeepsService(limits, w, id, r, waiter, w');
    assert w'.budget.tracked - {id} == w.budget.tracked;
    AdmitKeepsHistories(w, id, w');
    AdmitKeepsBudget(limits, w.budget, id, r, waiter, w.now);
  }

  lemma LeaveKeepsBudget(limits: Limits, b: Budget, id: Id, waiter: string)
    requires MapsInverse(b) && AllTrackedOk(b) && |LowIds(b)| <= limits.maxOutstanding
    requires id in b.tracked && b.tracked[id].waiters - {waiter} != {}
    ensures var b' := RemoveWaiter(b, id, waiter);
            MapsInverse(b') && AllTrackedOk(b') && |LowIds(b')| <= limits.maxOutstanding
  {
    assert TrackedOk(b.tracked[id]);
    assert LowIds(RemoveWaiter(b, id, waiter)) == LowIds(b);
  }

  lemma LeaveKeepsInv(limits: Limits, w: World, id: Id, waiter: string)
    requires Inv(limits, w) && id in w.budget.tracked && w.budget.tracked[id].waiters - {waiter} != {}
    ensures Inv(limits, w.(budget := RemoveWaiter(w.budget, id, waiter)))
  {
    LeaveKeepsBudget(limits, w.budget, id, waiter);
    LeaveIsInPlace(w.budget, id, waiter);
    InPlaceKeepsInv(limits, w, RemoveWaiter(w.budget, id, waiter));
  }

  /** Retiring ignores everything about the live question except what its history entry copies. */
  lemma LastLeaveKeepsInv(limits: Limits, w: World, id: Id, waiter: string)
    requires Inv(limits, w) && id in w.budget.tracked
    ensures Inv(limits, w.(budget := Retire(RemoveWaiter(w.budget, id, waiter), id, w.entries, w.now)))
  {
    var alone := RemoveWaiter(w.budget, id, waiter);
    var b' := Retire(alone, id, w.entries, w.now);
    var w' := w.(budget := b');
    assert b'.tracked == w.budget.tracked - {id};
    RetireKeepsMaps(limits, w, id, b');
    forall x | x in b'.tracked ensures BatchCovers(w', x) { assert BatchCovers(w, x); }
    if id in w.entries { RetireKeepsQueues(limits, w, id, alone.tracked[id], b'); }
  }

  lemma PresentKeepsBudget(limits: Limits, b: Budget, e: Entries, now: int)
    requires MapsInverse(b) && AllTrackedOk(b) && |LowIds(b)| <= limits.maxOutstanding
    ensures var b' := Present(b, e, now, limits);
            MapsInverse(b') && AllTrackedOk(b') && |LowIds(b')| <= limits.maxOutstanding
  {
    var b' := Present(b, e, now, limits);
    assert LowIds(b') == LowIds(b);
    forall x | x in b'.tracked ensures TrackedOk(b'.tracked[x]) { assert TrackedOk(b.tracked[x]); }
  }

  /** A question the service still has at the end was seen, for a forgotten one never comes back. */
  lemma StillThereIsSeen(w: World, seen: Entries, w': World, id: Id)
    requires SeenBetween(w, seen, w', id) && id in w.used && id in w'.entries
    ensures id in seen
  {
  }

  lemma PresentKeepsBatch(limits: Limits, w: World, seen: Entries, w': World)
    requires BatchOk(w) && w'.entries == w.entries && w'.now == w.now
    requires forall id :: id in w.budget.tracked && id in w.entries ==> id in seen
    requires w'.budget == Present(w.budget, seen, w.now, limits)
    ensures BatchOk(w')
  {
    forall x | x in w'.budget.tracked ensures BatchCovers(w', x) { assert BatchCovers(w, x); }
  }

  lemma PresentKeepsHanded(limits: Limits, w: World, order: seq<Id>, seen: Entries, w': World)
    requires HandedOk(w) && w.budget.tracked.Keys <= w.used && w'.used == w.used
    requires NoDup(order) && forall id :: id in order <==> IsDue(w.budget, seen, w.now, limits, id)
    requires w'.budget == Present(w.budget, seen, w.now, limits) && w'.handed == w.handed + order
    ensures HandedOk(w')
  {
    forall id | id in order ensures id in w.used && id !in w.handed && w'.budget.tracked[id].presented {
      assert IsDue(w.budget, seen, w.now, limits, id);
    }
    forall i, j | 0 <= i < j < |w'.handed| ensures w'.handed[i] != w'.handed[j] {
      if i < |w.handed| <= j {
        assert w'.handed[j] in order && w'.handed[i] in w.handed;
      }
    }
  }

  /** The service comes to its last state first: nothing of the budget depends on when that happened. */
  lemma ServiceFirst(limits: Limits, w: World, order: seq<Id>, seen: Entries, w': World) returns (m: World)
    requires Inv(limits, w) && Next(limits, w, PresentStep(order, seen), w')
    ensures m == w.(entries := w'.entries, used := w'.used) && Inv(limits, m)
    ensures forall id :: id in m.budget.tracked && id in m.entries ==> id in seen
  {
    m := w.(entries := w'.entries, used := w'.used);
    assert Next(limits, w, ServiceStep, m);
    ServiceKeepsInv(limits, w, m);
    forall id | id in m.budget.tracked && id in m.entries ensures id in seen { StillThereIsSeen(w, seen, w', id); }
  }

  lemma PresentKeepsInv(limits: Limits, w: World, order: seq<Id>, seen: Entries, w': World)
    requires Inv(limits, w) && Next(limits, w, PresentStep(order, seen), w')
    ensures Inv(limits, w')
  {
    var m := ServiceFirst(limits, w, order, seen, w');
    PresentedKeepsInv(limits, m, order, seen, w');
  }

  lemma PresentedKeepsInv(limits: Limits, w: World, order: seq<Id>, seen: Entries, w': World)
    requires Inv(limits, w) && forall id :: id in w.budget.tracked && id in w.entries ==> id in seen
    requires NoDup(order) && forall id :: id in order <==> IsDue(w.budget, seen, w.now, limits, id)
    requires w' == w.(budget := Present(w.budget, seen, w.now, limits), handed := w.handed + order)
    ensures Inv(limits, w')
  {
    PresentKeepsBudget(limits, w.budget, seen, w.now);
    PresentKeepsBatch(limits, w, seen, w');
    PresentKeepsHanded(limits, w, order, seen, w');
    assert w'.budget.tracked.Keys == w.budget.tracked.Keys;
    assert Linked(w') && HistoryApart(w') && EmittedOk(w');
  }

  /** Draining splits the queue in two by the deadline ... */
  lemma {:induction false} DrainPartitions(ds: seq<ExpiredDefault>, now: int, d: ExpiredDefault)
    ensures d in DefaultsDue(ds, now) <==> d in ds && d.expiresAt <= now
    ensures d in DefaultsPending(ds, now) <==> d in ds && now < d.expiresAt
  {
    if ds != [] { DrainPartitions(ds[1..], now, d); }
  }

  /** ... and keeps the order of both halves. */
  lemma {:induction false} DrainKeepsOrder(ds: seq<ExpiredDefault>, now: int)
    ensures Subsequence(DefaultsPending(ds, now), ds) && Subsequence(DefaultsDue(ds, now), ds)
  {
    if ds != [] {
      DrainKeepsOrder(ds[1..], now);
      DrainPartitions(ds[1..], now, ds[0]);
      var due, pending := DefaultsDue(ds[1..], now), DefaultsPending(ds[1..], now);
      if ds[0].expiresAt <= now {
        assert DefaultsDue(ds, now) == [ds[0]] + due && DefaultsPending(ds, now) == pending;
      } else {
        assert DefaultsDue(ds, now) == due && DefaultsPending(ds, now) == [ds[0]] + pending;
      }
    }
  }

  lemma DrainKeepsEmitted(w: World, due: seq<ExpiredDefault>, pending: seq<ExpiredDefault>)
    requires HistoryOk(w.budget.retired, w.budget.expiredDefaults) && HistoryApart(w) && EmittedOk(w)
    requires due == DefaultsDue(w.budget.expiredDefaults, w.now)
    requires pending == DefaultsPending(w.budget.expiredDefaults, w.now)
    ensures EmittedOk(w.(budget := w.budget.(expiredDefaults := pending), emitted := w.emitted + due))
  {
    var ds := w.budget.expiredDefaults;
    DrainKeepsOrder(ds, w.now);
    OwedDistinct(w.budget.retired, ds);
    SubsequenceDistinct(due, ds);
    forall d
      ensures (d in due ==> d in ds && d.expiresAt <= w.now) && (d in pending ==> d in ds && w.now < d.expiresAt)
    {
      DrainPartitions(ds, w.now, d);
    }
    forall d | d in due ensures SafeDefault(d) && d.questionId in w.used && d.questionId !in w.budget.tracked {
      OwedComeFromHistory(w.budget.retired, ds, d);
    }
    forall d, o | d in due && o in pending ensures d.questionId != o.questionId {
      var i :| 0 <= i < |ds| && ds[i] == d;
      var j :| 0 <= j < |ds| && ds[j] == o;
      assert i != j;
    }
  }

  lemma DrainKeepsInv(limits: Limits, w: World, w': World)
    requires Inv(limits, w) && Next(limits, w, DrainStep, w')
    ensures Inv(limits, w')
  {
    var ds := w.budget.expiredDefaults;
    var due, pending := DefaultsDue(ds, w.now), DefaultsPending(ds, w.now);
    DrainKeepsOrder(ds, w.now);
    SubsequenceTransitive(pending, ds, DefaultsOf(w.budget.retired));
    DrainKeepsEmitted(w, due, pending);
    assert LowIds(w'.budget) == LowIds(w.budget);
    forall x | x in w'.budget.tracked ensures BatchCovers(w', x) { assert BatchCovers(w, x); }
  }

  lemma StepKeepsInv(limits: Limits, w: World, step: Step, w': World)
    requires Inv(limits, w) && Next(limits, w, step, w')
    ensures Inv(limits, w')
  {
    match step
    case ServiceStep => ServiceKeepsInv(limits, w, w');
    case RetireStep(id) => RetireKeepsInv(limits, w, id);
    case CloseBatchStep => CloseBatchKeepsInv(limits, w);
    case ShareStep(id, r, waiter) => ShareKeepsInv(limits, w, id, r, waiter);
    case AdmitStep(id, r, waiter) => AdmitKeepsInv(limits, w, id, r, waiter, w');
    case LeaveStep(id, waiter) => LeaveKeepsInv(limits, w, id, waiter);
    case LastLeaveStep(id, waiter) => LastLeaveKeepsInv(limits, w, id, waiter);
    case PresentStep(order, seen) => PresentKeepsInv(limits, w, order, seen, w');
    case DrainStep => DrainKeepsInv(limits, w, w');
  }

  // ----- the theorems over whole runs -----

  lemma InitHasInv(limits: Limits, w: World)
    requires Init(w)
    ensures Inv(limits, w)
  {
    assert LowIds(w.budget) == {};
  }

  lemma {:induction false} RunKeepsInv(limits: Limits, worlds: seq<World>, steps: seq<Step>, n: nat)
    requires IsRun(limits, worlds, steps) && n < |worlds|
    ensures Inv(limits, worlds[n])
  {
    if n == 0 {
      InitHasInv(limits, worlds[0]);
    } else {
      RunKeepsInv(limits, worlds, steps, n - 1);
      assert StepAt(limits, worlds, steps, n - 1);
      StepKeepsInv(limits, worlds[n - 1], steps[n - 1], worlds[n]);
    }
  }

  /** Materially identical questions share one prompt. */
  lemma OneQuestionPerKey(limits: Limits, worlds: seq<World>, steps: seq<Step>, n: nat, id1: Id, id2: Id)
    requires IsRun(limits, worlds, steps) && n < |worlds|
    requires id1 in worlds[n].budget.tracked && id2 in worlds[n].budget.tracked && id1 != id2
    ensures worlds[n].budget.tracked[id1].key != worlds[n].budget.tracked[id2].key
  {
    RunKeepsInv(limits, worlds, steps, n);
  }

  /** The two maps stay inverse, no live question lacks a waiter, no waiter's delivery is there twice. */
  lemma LiveQuestionsAreLinked(limits: Limits, worlds: seq<World>, steps: seq<Step>, n: nat, id: Id)
    requires IsRun(limits, worlds, steps) && n < |worlds| && id in worlds[n].budget.tracked
    ensures var b := worlds[n].budget;
            && b.tracked[id].key in b.byKey && b.byKey[b.tracked[id].key] == id
            && b.tracked[id].waiters != {} && NoDup(b.tracked[id].deliveries)
            && forall k :: k in b.byKey ==> b.byKey[k] in b.tracked && b.tracked[b.byKey[k]].key == k
  {
    RunKeepsInv(limits, worlds, steps, n);
    assert TrackedOk(worlds[n].budget.tracked[id]);
  }

  lemma LowPriorityIsBounded(limits: Limits, worlds: seq<World>, steps: seq<Step>, n: nat)
    requires IsRun(limits, worlds, steps) && n < |worlds|
    ensures |LowIds(worlds[n].budget)| <= limits.maxOutstanding
  {
    RunKeepsInv(limits, worlds, steps, n);
  }

  /** Over the whole run each question reaches the human at most once, each default is applied at most once. */
  lemma HandedOutAtMostOnce(limits: Limits, worlds: seq<World>, steps: seq<Step>, n: nat)
    requires IsRun(limits, worlds, steps) && n < |worlds|
    ensures NoDup(worlds[n].handed) && DistinctIds(worlds[n].emitted)
  {
    RunKeepsInv(limits, worlds, steps, n);
  }

  /** However waiters joined and whatever their priority, no unsafe default is ever handed to the consumer. */
  lemma EveryEmittedDefaultIsSafe(limits: Limits, worlds: seq<World>, steps: seq<Step>, n: nat, d: ExpiredDefault)
    requires IsRun(limits, worlds, steps) && n < |worlds| && d in worlds[n].emitted
    ensures d.priority.Low? && !d.irreversible
  {
    RunKeepsInv(limits, worlds, steps, n);
  }

  // ----- where an emitted default comes from -----

  /** The live question as this step retires it: with all its waiters, or with the last one gone. */
  function AsRetired(w: World, step: Step): Option<Tracked> {
    match step
    case RetireStep(id) => if id in w.budget.tracked then Some(w.budget.tracked[id]) else None
    case LastLeaveStep(id, waiter) =>
      if id in w.budget.tracked then Some(RemoveWaiter(w.budget, id, waiter).tracked[id]) else None
    case _ => None
  }

  /** This step retired a question by its default, and `d` is what is owed for it. */
  ghost predicate RetiresAs(w: World, step: Step, d: ExpiredDefault) {
    && AsRetired(w, step).Some? && d.questionId in w.entries
    && DefaultFor(AsRetired(w, step).value, w.entries[d.questionId]) == Some(d)
  }

  lemma {:induction false} ForgetMembers(ds: seq<ExpiredDefault>, id: Id, d: ExpiredDefault)
    requires d in Forget(ds, id)
    ensures d in ds
  {
    if ds[0].questionId != id && d != ds[0] { ForgetMembers(ds[1..], id, d); }
  }

  lemma {:induction false} TrimMembers(history: seq<Retired>, owed: seq<ExpiredDefault>, d: ExpiredDefault)
    requires d in TrimHistory(history, owed).1
    ensures d in owed
    decreases |history|
  {
    if |history| > SETTLED_HISTORY {
      var first := history[0].expiredDefault;
      if first.Some? {
        TrimMembers(history[1..], Forget(owed, first.value.questionId), d);
        ForgetMembers(owed, first.value.questionId, d);
      } else {
        TrimMembers(history[1..], owed, d);
      }
    }
  }

  lemma RetireAdds(b: Budget, id: Id, e: Entries, now: int, d: ExpiredDefault)
    requires d in Retire(b, id, e, now).expiredDefaults
    ensures d in b.expiredDefaults || (id in b.tracked && id in e && DefaultFor(b.tracked[id], e[id]) == Some(d))
  {
    if id in b.tracked && id in e {
      var t, q := b.tracked[id], e[id];
      var owed := DefaultFor(t, q);
      var entry := Retired(q, t.scope, t.priority, t.origin, t.waiters, t.presented, now, owed);
      TrimMembers(b.retired + [entry], b.expiredDefaults + if owed.Some? then [owed.value] else [], d);
    }
  }

  lemma OriginStep(limits: Limits, w: World, step: Step, w': World, d: ExpiredDefault)
    requires SoundEntries(w.entries) && Next(limits, w, step, w') && (d in w'.budget.expiredDefaults || d in w'.emitted)
    ensures d in w.budget.expiredDefaults || d in w.emitted || RetiresAs(w, step, d)
  {
    match step
    case RetireStep(id) => if d !in w'.emitted { RetireAdds(w.budget, id, w.entries, w.now, d); }
    case LastLeaveStep(id, waiter) =>
      if d !in w'.emitted { RetireAdds(RemoveWaiter(w.budget, id, waiter), id, w.entries, w.now, d); }
    case DrainStep => DrainPartitions(w.budget.expiredDefaults, w.now, d);
    case _ =>
  }

  /** Every default ever owed or emitted was made by an earlier retirement, and is for waiters that were there then. */
  lemma {:induction false} EmittedDefaultHasOrigin(limits: Limits, worlds: seq<World>, steps: seq<Step>, n: nat,
                                                   d: ExpiredDefault)
    returns (m: nat)
    requires IsRun(limits, worlds, steps) && n < |worlds|
             && (d in worlds[n].budget.expiredDefaults || d in worlds[n].emitted)
    ensures m < n && RetiresAs(worlds[m], steps[m], d)
    ensures var t := AsRetired(worlds[m], steps[m]).value;
            forall x :: x in d.deliveries ==> exists waiter :: waiter in t.waiters && (waiter, x) in t.deliveries
  {
    assert n > 0;
    m := n - 1;
    RunKeepsInv(limits, worlds, steps, m);
    assert StepAt(limits, worlds, steps, m);
    OriginStep(limits, worlds[m], steps[m], worlds[n], d);
    if d in worlds[m].budget.expiredDefaults || d in worlds[m].emitted {
      m := EmittedDefaultHasOrigin(limits, worlds, steps, m, d);
    }
  }

  /** The history stays bounded and the owed defaults are, in order and without repeats, defaults of it. */
  lemma HistoryIsBoundedAndLinked(limits: Limits, worlds: seq<World>, steps: seq<Step>, n: nat)
    requires IsRun(limits, worlds, steps) && n < |worlds|
    ensures |worlds[n].budget.retired| <= 64
    ensures Subsequence(worlds[n].budget.expiredDefaults, DefaultsOf(worlds[n].budget.retired))
    ensures DistinctIds(worlds[n].budget.expiredDefaults)
  {
    RunKeepsInv(limits, worlds, steps, n);
    OwedDistinct(worlds[n].budget.retired, worlds[n].budget.expiredDefaults);
  }

  /**
   Bounded latency: once prompts have been taken, a question still pending and unseen is not
   blocking and was asked less than a batch window ago.
   */
  lemma TakingPromptsLeavesNothingOverdue(limits: Limits, worlds: seq<World>, steps: seq<Step>, n: nat, id: Id)
    requires IsRun(limits, worlds, steps) && n < |steps| && steps[n].PresentStep?
    requires id in worlds[n + 1].budget.tracked && !Settled(worlds[n + 1].entries, id)
    requires id !in worlds[n + 1].handed
    ensures !worlds[n + 1].budget.tracked[id].priority.Blocking?
    ensures worlds[n + 1].now < worlds[n + 1].entries[id].askedAt + limits.batchWindowMs * NANOS_PER_MILLI
  {
    RunKeepsInv(limits, worlds, steps, n);
    RunKeepsInv(limits, worlds, steps, n + 1);
    assert StepAt(limits, worlds, steps, n);
    TakingLeaves(limits, worlds[n], steps[n].order, steps[n].seen, worlds[n + 1], id);
  }

  lemma TakingLeaves(limits: Limits, w: World, order: seq<Id>, seen: Entries, w': World, id: Id)
    requires Inv(limits, w) && HandedOk(w') && Next(limits, w, PresentStep(order, seen), w')
    requires id in w'.budget.tracked && !Settled(w'.entries, id) && id !in w'.handed
    ensures !w'.budget.tracked[id].priority.Blocking?
    ensures w'.now < w'.entries[id].askedAt + limits.batchWindowMs * NANOS_PER_MILLI
  {
    var m := ServiceFirst(limits, w, order, seen, w');
    PresentLeaves(limits, m, seen, w', id);
  }

  lemma PresentLeaves(limits: Limits, w: World, seen: Entries, w': World, id: Id)
    requires BatchOk(w) && HandedOk(w') && w'.entries == w.entries && w'.now == w.now
    requires w'.budget == Present(w.budget, seen, w.now, limits)
    requires id in w'.budget.tracked && !Settled(w'.entries, id) && id !in w'.handed && id in seen
    ensures !w'.budget.tracked[id].priority.Blocking?
    ensures w'.now < w'.entries[id].askedAt + limits.batchWindowMs * NANOS_PER_MILLI
  {
    assert BatchCovers(w, id);
  }

  // ----- reachable worlds -----

  /** Some run of the machine ends in `w`. */
  ghost predicate Reachable(limits: Limits, w: World) {
    exists worlds, steps :: IsRun(limits, worlds, steps) && worlds[|steps|] == w
  }

  lemma ReachableHasInv(limits: Limits, w: World)
    requires Reachable(limits, w)
    ensures Inv(limits, w)
  {
    var worlds, steps :| IsRun(limits, worlds, steps) && worlds[|steps|] == w;
    RunKeepsInv(limits, worlds, steps, |steps|);
  }

  lemma InitIsReachable(limits: Limits, w: World)
    requires Init(w)
    ensures Reachable(limits, w)
  {
    var none: seq<Step> := [];
    assert IsRun(limits, [w], none) && [w][|none|] == w;
  }

  lemma Extend(limits: Limits, w: World, step: Step, w': World)
    requires Reachable(limits, w) && Next(limits, w, step, w')
    ensures Reachable(limits, w')
  {
    var worlds, steps :| IsRun(limits, worlds, steps) && worlds[|steps|] == w;
    var worlds', steps' := worlds + [w'], steps + [step];
    forall i | 0 <= i < |steps'| ensures StepAt(limits, worlds', steps', i) {
      if i < |steps| { assert StepAt(limits, worlds, steps, i); }
    }
    assert IsRun(limits, worlds', steps') && worlds'[|steps'|] == w';
  }

  /** What a caller needs to know of a reachable world before it may call the service. */
  lemma ReachableFacts(limits: Limits, w: World)
    requires Reachable(limits, w)
    ensures w.entries.Keys <= w.used && SoundEntries(w.entries)
    ensures forall k :: k in w.budget.byKey ==> w.budget.byKey[k] in w.budget.tracked
  {
    ReachableHasInv(limits, w);
  }

  lemma ServiceReachable(limits: Limits, w: World, used': set<Id>, e': Entries, now': int)
    requires Reachable(limits, w) && Evolves(w.used, w.entries, used', e') && w.now <= now'
    ensures Reachable(limits, w.(entries := e', used := used', now := now'))
  {
    Extend(limits, w, ServiceStep, w.(entries := e', used := used', now := now'));
  }

  lemma RetireReachable(limits: Limits, w: World, id: Id)
    requires Reachable(limits, w) && Settled(w.entries, id)
    ensures Reachable(limits, w.(budget := Retire(w.budget, id, w.entries, w.now)))
  {
    Extend(limits, w, RetireStep(id), w.(budget := Retire(w.budget, id, w.entries, w.now)));
  }

  lemma CloseBatchReachable(limits: Limits, w: World)
    requires Reachable(limits, w)
    ensures Reachable(limits, w.(budget := CloseBatch(w.budget)))
  {
    Extend(limits, w, CloseBatchStep, w.(budget := CloseBatch(w.budget)));
  }

  lemma ShareReachable(limits: Limits, w: World, id: Id, r: Request, waiter: string)
    requires Reachable(limits, w) && ValidRequest(r)
    requires KeyOf(r) in w.budget.byKey && w.budget.byKey[KeyOf(r)] == id && id in w.budget.tracked
    ensures Reachable(limits, w.(budget := Share(w.budget, id, r, waiter)))
  {
    Extend(limits, w, ShareStep(id, r, waiter), w.(budget := Share(w.budget, id, r, waiter)));
  }

  lemma AdmitReachable(limits: Limits, w: World, id: Id, r: Request, waiter: string, e': Entries)
    requires Reachable(limits, w) && ValidRequest(r) && KeyOf(r) !in w.budget.byKey
    requires r.priority.Low? ==> |w.budget.tracked| < limits.maxOutstanding
    requires id !in w.used && Evolves(w.used, w.entries, w.used + {id}, e')
    requires id in e' && AskedFor(e'[id], r, w.now)
    ensures Reachable(limits, w.(entries := e', used := w.used + {id}, budget := Admit(w.budget, id, r, waiter, w.now)))
  {
    Extend(limits, w, AdmitStep(id, r, waiter),
           w.(entries := e', used := w.used + {id}, budget := Admit(w.budget, id, r, waiter, w.now)));
  }

  lemma LeaveReachable(limits: Limits, w: World, id: Id, waiter: string)
    requires Reachable(limits, w) && id in w.budget.tracked && w.budget.tracked[id].waiters - {waiter} != {}
    ensures Reachable(limits, w.(budget := RemoveWaiter(w.budget, id, waiter)))
  {
    Extend(limits, w, LeaveStep(id, waiter), w.(budget := RemoveWaiter(w.budget, id, waiter)));
  }

  lemma LastLeaveReachable(limits: Limits, w: World, id: Id, waiter: string)
    requires Reachable(limits, w) && id in w.budget.tracked && w.budget.tracked[id].waiters - {waiter} == {}
    requires Settled(w.entries, id)
    ensures Reachable(limits, w.(budget := Retire(RemoveWaiter(w.budget, id, waiter), id, w.entries, w.now)))
  {
    Extend(limits, w, LastLeaveStep(id, waiter),
           w.(budget := Retire(RemoveWaiter(w.budget, id, waiter), id, w.entries, w.now)));
  }

  /** Handing out the due questions right after a sweep leaves nothing overdue. */
  lemma PresentReachable(limits: Limits, w: World, order: seq<Id>)
    requires Reachable(limits, w)
    requires NoDup(order) && (forall id :: id in order <==> IsDue(w.budget, w.entries, w.now, limits, id))
    ensures var b' := Present(w.budget, w.entries, w.now, limits);
            && Reachable(limits, w.(budget := b', handed := w.handed + order))
            && (forall id :: id in b'.tracked && !b'.tracked[id].presented && !Settled(w.entries, id) ==>
                  !b'.tracked[id].priority.Blocking?
                  && w.now < w.entries[id].askedAt + limits.batchWindowMs * NANOS_PER_MILLI)
  {
    var b' := Present(w.budget, w.entries, w.now, limits);
    var w' := w.(budget := b', handed := w.handed + order);
    ReachableHasInv(limits, w);
    assert Evolves(w.used, w.entries, w.used, w.entries);
    forall id ensures SeenBetween(w, w.entries, w', id) {}
    Extend(limits, w, PresentStep(order, w.entries), w');
    forall id | id in b'.tracked && !b'.tracked[id].presented && !Settled(w.entries, id)
      ensures !b'.tracked[id].priority.Blocking?
              && w.now < w.entries[id].askedAt + limits.batchWindowMs * NANOS_PER_MILLI
    {
      assert BatchCovers(w, id);
    }
  }

  lemma DrainReachable(limits: Limits, w: World)
    requires Reachable(limits, w)
    ensures var ds := w.budget.expiredDefaults;
            && Reachable(limits, w.(budget := w.budget.(expiredDefaults := DefaultsPending(ds, w.now)),
                                    emitted := w.emitted + DefaultsDue(ds, w.now)))
            && (forall d :: d in DefaultsDue(ds, w.now) ==> d.priority.Low? && !d.irreversible && d.expiresAt <= w.now)
  {
    var ds := w.budget.expiredDefaults;
    var w' := w.(budget := w.budget.(expiredDefaults := DefaultsPending(ds, w.now)),
                 emitted := w.emitted + DefaultsDue(ds, w.now));
    Extend(limits, w, DrainStep, w');
    ReachableHasInv(limits, w');
    forall d | d in DefaultsDue(ds, w.now) ensures d in w'.emitted && d.expiresAt <= w.now {
      DrainPartitions(ds, w.now, d);
    }
  }
}
