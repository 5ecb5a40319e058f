/**
 The question registry over every history of calls: how much is pending at once, and by whom and how
 a question can have been settled.
 */
module QuestionLaws {
  import opened Outcome
  import opened Ordering
  import opened Questions

  datatype Op =
    | Registers(q: Question, now: int)
    | Answers(id: Id, principal: string, text: string, now: int)
    | Rejects(id: Id, principal: string, now: int)
    | Cancels(id: Id, principal: string, now: int)
    | Withdraws(id: Id, principal: string, now: int)
    | Expires(now: int)

  function Settling(e: Entries, id: Id, principal: string, requireAsker: bool, target: State, answer: Option<string>,
                    now: int): Entries
  {
    var expired := ExpireEntries(e, now);
    AfterSettlement(expired, id, Settlement(expired, id, principal, requireAsker, target, answer, now))
  }

  /** What a call makes of the entries. */
  ghost predicate Makes(max: nat, e: Entries, op: Op, e': Entries) {
    match op
    case Registers(q, now) =>
      if !ValidQuestion(q) then e' == e
      else if RegisterRefusal(ExpireEntries(e, now), q, max).Some? then e' == ExpireEntries(e, now)
      else PrunedTo(ExpireEntries(e, now)[q.id := q], max, e')
    case Answers(id, principal, text, now) =>
      e' == if Blank(text) then e else Settling(e, id, principal, false, Answered, Some(text), now)
    case Rejects(id, principal, now) => e' == Settling(e, id, principal, false, Rejected, None, now)
    case Cancels(id, principal, now) => e' == Settling(e, id, principal, true, Cancelled, None, now)
    case Withdraws(id, principal, now) => e' == Settling(e, id, principal, true, Withdrawn, None, now)
    case Expires(now) => PrunedTo(ExpireEntries(e, now), max, e')
  }

  ghost function Made(max: nat): iset<(Entries, Op, Entries)> {
    iset m: (Entries, Op, Entries) | Makes(max, m.0, m.1, m.2)
  }

  /** The registry starts empty, and then is called time and again. */
  ghost predicate IsHistory(max: nat, es: seq<Entries>, ops: seq<Op>) {
    |es| == |ops| + 1 && es[0] == map[] && forall i :: 0 <= i < |ops| ==> (es[i], ops[i], es[i + 1]) in Made(max)
  }

  // ----- how much is pending -----

  function PendingIds(e: Entries): set<Id> {
    set id | id in e && e[id].state.Pending?
  }

  /** At most so many pending questions, no two of which share a correlation. */
  ghost predicate Orderly(max: nat, e: Entries) {
    && |PendingIds(e)| <= max
    && forall i, j :: i in PendingIds(e) && j in PendingIds(e) && e[i].correlation == e[j].correlation ==> i == j
  }

  /** Nothing new is pending, and what is has its correlation still. */
  ghost predicate FewerPending(e: Entries, e': Entries) {
    forall id :: id in PendingIds(e') ==> id in PendingIds(e) && e'[id].correlation == e[id].correlation
  }

  lemma FewerIsOrderly(max: nat, e: Entries, e': Entries)
    requires Orderly(max, e) && FewerPending(e, e')
    ensures Orderly(max, e')
  {
    assert PendingIds(e') <= PendingIds(e);
    SubsetSize(PendingIds(e'), PendingIds(e));
  }

  lemma ExpiringIsFewer(e: Entries, now: int)
    ensures FewerPending(e, ExpireEntries(e, now))
  {
  }

  lemma SettlingIsFewer(e: Entries, id: Id, principal: string, requireAsker: bool, target: State,
                        answer: Option<string>,
                        now: int)
    requires !target.Pending?
    ensures FewerPending(e, Settling(e, id, principal, requireAsker, target, answer, now))
  {
    ExpiringIsFewer(e, now);
  }

  lemma PendingIsCounted(e: Entries)
    ensures |PendingIds(e)| == PendingCount(e)
  {
    assert PendingIds(e) == e.Keys - SettledIds(e);
  }

  lemma FiledIsOrderly(max: nat, e: Entries, q: Question, filed: Entries)
    requires Orderly(max, e) && RegisterRefusal(e, q, max).None? && filed == e[q.id := q]
    ensures Orderly(max, filed)
  {
    PendingIsCounted(e);
    assert PendingIds(filed) == if q.state.Pending? then PendingIds(e) + {q.id} else PendingIds(e);
    forall i, j | i in PendingIds(filed) && j in PendingIds(filed) && filed[i].correlation == filed[j].correlation
      ensures i == j
    {
      if i != q.id { assert i in PendingIds(e) && filed[i] == e[i]; }
      if j != q.id { assert j in PendingIds(e) && filed[j] == e[j]; }
    }
  }

  lemma FilingIsOrderly(max: nat, e: Entries, q: Question, e': Entries)
    requires Orderly(max, e) && RegisterRefusal(e, q, max).None? && PrunedTo(e[q.id := q], max, e')
    ensures Orderly(max, e')
  {
    FiledIsOrderly(max, e, q, e[q.id := q]);
    FewerIsOrderly(max, e[q.id := q], e');
  }

  lemma OpIsOrderly(max: nat, e: Entries, op: Op, e': Entries)
    requires Orderly(max, e) && (e, op, e') in Made(max)
    ensures Orderly(max, e')
  {
    ExpiringIsFewer(e, op.now);
    FewerIsOrderly(max, e, ExpireEntries(e, op.now));
    match op
    case Registers(q, now) =>
      if ValidQuestion(q) && RegisterRefusal(ExpireEntries(e, now), q, max).None? {
        FilingIsOrderly(max, ExpireEntries(e, now), q, e');
      }
    case Answers(id, p, text, now) =>
      SettlingIsFewer(e, id, p, false, Answered, Some(text), now);
      if !Blank(text) { FewerIsOrderly(max, e, e'); }
    case Rejects(id, p, now) =>
      SettlingIsFewer(e, id, p, false, Rejected, None, now);
      FewerIsOrderly(max, e, e');
    case Cancels(id, p, now) =>
      SettlingIsFewer(e, id, p, true, Cancelled, None, now);
      FewerIsOrderly(max, e, e');
    case Withdraws(id, p, now) =>
      SettlingIsFewer(e, id, p, true, Withdrawn, None, now);
      FewerIsOrderly(max, e, e');
    case Expires(now) => FewerIsOrderly(max, e, e');
  }

  /** Over every history: no more than the limit is pending, and one question at most for each correlation. */
  lemma {:induction false} PendingStaysOrderly(max: nat, es: seq<Entries>, ops: seq<Op>, n: nat)
    requires IsHistory(max, es, ops) && n < |es|
    ensures Orderly(max, es[n])
  {
    if n == 0 {
      assert PendingIds(es[0]) == {};
    } else {
      PendingStaysOrderly(max, es, ops, n - 1);
      OpIsOrderly(max, es[n - 1], ops[n - 1], es[n]);
    }
  }

  /** What is forgotten to keep to the limit was settled, and asked no later than any settled record that stays. */
  lemma ForgottenAreOldest(e: Entries, keep: nat, r: Entries, gone: Id, kept: Id)
    requires PrunedTo(e, keep, r) && gone in e && gone !in r && kept in r && !e[kept].state.Pending?
    ensures !e[gone].state.Pending? && e[gone].askedAt <= e[kept].askedAt && |SettledIds(r)| == keep
    ensures e[gone].askedAt == e[kept].askedAt ==> LexLE(e[gone].id, e[kept].id)
  {
    assert r[kept] == e[kept] && kept in SettledIds(r) && gone in SettledIds(e);
    if |SettledIds(e)| <= keep { AllSettledStay(e, r, gone); }
  }

  lemma AllSettledStay(e: Entries, r: Entries, id: Id)
    requires r.Keys <= e.Keys && (forall x :: x in r ==> r[x] == e[x]) && |SettledIds(r)| == |SettledIds(e)|
    requires id in SettledIds(e)
    ensures id in r
  {
    if id !in r {
      assert SettledIds(r) <= SettledIds(e) - {id};
      SubsetSize(SettledIds(r), SettledIds(e) - {id});
    }
  }

  // ----- what is on record -----

  /** Something other than white space. */
  predicate HasText(s: string) {
    exists i :: 0 <= i < |s| && !IsSpace(s[i])
  }

  lemma {:induction false} BlankIs(s: string)
    ensures Blank(s) <==> !HasText(s)
  {
    if s != "" {
      BlankIs(s[1..]);
      if i :| 0 <= i < |s[1..]| && !IsSpace(s[1..][i]) { assert !IsSpace(s[i + 1]); }
      if i :| 0 <= i < |s| && !IsSpace(s[i]) && i > 0 { assert !IsSpace(s[1..][i - 1]); }
    }
  }

  /** Everybody is named, the deadline lies ahead of the asking, and only a reversible question has a default. */
  predicate IsComplete(q: Question) {
    && HasText(q.id) && HasText(q.asker) && HasText(q.answerer) && HasText(q.correlation) && HasText(q.text)
    && (q.expiresAt.Some? ==> q.askedAt < q.expiresAt.value)
    && (q.defaultAnswer.Some? ==>
       HasText(q.defaultAnswer.value) && !q.irreversible && q.kind !in {PlanApproval, PermissionEscalation})
    && (q.state.Answered? ==> q.answer.Some? && q.answer.value != "" && q.answeredAt.Some?)
    && (q.state.Defaulted? ==> q.defaultAnswer.Some? && q.answer == q.defaultAnswer && q.answeredAt.Some?)
  }

  lemma ValidIsComplete(q: Question)
    ensures ValidQuestion(q) <==> IsComplete(q)
  {
    BlankIs(q.id);
    BlankIs(q.asker);
    BlankIs(q.answerer);
    BlankIs(q.correlation);
    BlankIs(q.text);
    if q.defaultAnswer.Some? { BlankIs(q.defaultAnswer.value); }
  }

  lemma SettlingKeepsValid(e: Entries, id: Id, principal: string, requireAsker: bool, target: State,
                           answer: Option<string>, now: int)
    requires ValidEntries(e) && !target.Pending? && !target.Defaulted?
    requires target.Answered? ==> answer.Some? && !Blank(answer.value)
    ensures ValidEntries(Settling(e, id, principal, requireAsker, target, answer, now))
  {
    ExpireEvolves(e.Keys, e, now);
    SettlementEvolves(e.Keys, ExpireEntries(e, now), id, principal, requireAsker, target, answer, now);
  }

  lemma OpKeepsValid(max: nat, e: Entries, op: Op, e': Entries)
    requires ValidEntries(e) && (e, op, e') in Made(max)
    ensures ValidEntries(e')
  {
    ExpireEvolves(e.Keys, e, op.now);
    match op
    case Registers(q, now) =>
      if ValidQuestion(q) && RegisterRefusal(ExpireEntries(e, now), q, max).None? {
        FilingIsValid(ExpireEntries(e, now), q, max, e');
      }
    case Answers(id, p, text, now) =>
      if !Blank(text) { SettlingKeepsValid(e, id, p, false, Answered, Some(text), now); }
    case Rejects(id, p, now) => SettlingKeepsValid(e, id, p, false, Rejected, None, now);
    case Cancels(id, p, now) => SettlingKeepsValid(e, id, p, true, Cancelled, None, now);
    case Withdraws(id, p, now) => SettlingKeepsValid(e, id, p, true, Withdrawn, None, now);
    case Expires(now) => PruneEvolves(e.Keys, ExpireEntries(e, now), e');
  }

  lemma {:induction false} HistoryKeepsValid(max: nat, es: seq<Entries>, ops: seq<Op>, n: nat)
    requires IsHistory(max, es, ops) && n < |es|
    ensures ValidEntries(es[n])
  {
    if n > 0 {
      HistoryKeepsValid(max, es, ops, n - 1);
      OpKeepsValid(max, es[n - 1], ops[n - 1], es[n]);
    }
  }

  /** Over every history each record is filed under its own id and complete. */
  lemma RecordsAreComplete(max: nat, es: seq<Entries>, ops: seq<Op>, n: nat, id: Id)
    requires IsHistory(max, es, ops) && n < |es| && id in es[n]
    ensures es[n][id].id == id && IsComplete(es[n][id])
  {
    HistoryKeepsValid(max, es, ops, n);
    ValidIsComplete(es[n][id]);
  }

  // ----- how a question was settled -----

  /** The deadline had passed at the time of the call. */
  predicate Late(op: Op, q: Question) {
    q.expiresAt.Some? && q.expiresAt.value <= op.now
  }

  /** The call settled the question as it is: by the right principal, or by its deadline. */
  predicate Causes(op: Op, q: Question) {
    || (op.Registers? && op.q == q)
    || (op.Answers? && op.id == q.id && q.state.Answered? && op.principal == q.answerer && !Blank(op.text)
        && q.answer == Some(op.text) && q.answeredAt == Some(op.now))
    || (op.Rejects? && op.id == q.id && q.state.Rejected? && op.principal == q.answerer)
    || (op.Cancels? && op.id == q.id && q.state.Cancelled? && op.principal == q.asker)
    || (op.Withdraws? && op.id == q.id && q.state.Withdrawn? && op.principal == q.asker)
    || (q.state.Expired? && Late(op, q) && (q.defaultAnswer.None? || q.irreversible || ApprovalKind(q.kind)))
    || (q.state.Defaulted? && Late(op, q) && q.defaultAnswer.Some? && !q.irreversible && !ApprovalKind(q.kind)
        && q.answer == q.defaultAnswer && q.answeredAt == Some(op.now))
  }

  lemma ExpiryCauses(e: Entries, op: Op, id: Id)
    requires id in e && !ExpireEntries(e, op.now)[id].state.Pending?
    ensures var q := ExpireEntries(e, op.now)[id]; Causes(op, q) || e[id] == q
  {
  }

  lemma SettlingCauses(e: Entries, op: Op, id: Id, principal: string, requireAsker: bool, target: State,
                       answer: Option<string>, x: Id)
    requires x in e && e[x].id == x && !target.Pending?
    requires !Settling(e, id, principal, requireAsker, target, answer, op.now)[x].state.Pending?
    ensures var q := Settling(e, id, principal, requireAsker, target, answer, op.now)[x];
            || Causes(op, q) || e[x] == q
            || (x == id && q.state == target && principal == (if requireAsker then q.asker else q.answerer)
                && (target.Answered? ==> q.answer == answer && q.answeredAt == Some(op.now)))
  {
    if !ExpireEntries(e, op.now)[x].state.Pending? { ExpiryCauses(e, op, x); }
  }

  ghost predicate Filed(e: Entries) {
    forall id :: id in e ==> e[id].id == id
  }

  lemma ExpiringKeepsFiled(e: Entries, now: int)
    requires Filed(e)
    ensures Filed(ExpireEntries(e, now))
  {
  }

  lemma SettlingKeepsFiled(e: Entries, id: Id, principal: string, requireAsker: bool, target: State,
                           answer: Option<string>, now: int)
    requires Filed(e)
    ensures Filed(Settling(e, id, principal, requireAsker, target, answer, now))
  {
    ExpiringKeepsFiled(e, now);
  }

  lemma PruningKeepsFiled(e: Entries, max: nat, e': Entries)
    requires Filed(e) && PrunedTo(e, max, e')
    ensures Filed(e')
  {
  }

  lemma {:induction false} OpKeepsFiled(max: nat, e: Entries, op: Op, e': Entries)
    requires Filed(e) && (e, op, e') in Made(max)
    ensures Filed(e')
  {
    ExpiringKeepsFiled(e, op.now);
    match op
    case Registers(q, now) =>
      if ValidQuestion(q) && RegisterRefusal(ExpireEntries(e, now), q, max).None? {
        PruningKeepsFiled(ExpireEntries(e, now)[q.id := q], max, e');
      }
    case Expires(now) => PruningKeepsFiled(ExpireEntries(e, now), max, e');
    case Answers(id, p, text, now) => SettlingKeepsFiled(e, id, p, false, Answered, Some(text), now);
    case Rejects(id, p, now) => SettlingKeepsFiled(e, id, p, false, Rejected, None, now);
    case Cancels(id, p, now) => SettlingKeepsFiled(e, id, p, true, Cancelled, None, now);
    case Withdraws(id, p, now) => SettlingKeepsFiled(e, id, p, true, Withdrawn, None, now);
  }

  lemma {:induction false} RegisteringCauses(max: nat, e: Entries, q: Question, now: int, e': Entries, id: Id)
    requires Makes(max, e, Registers(q, now), e') && id in e' && !e'[id].state.Pending?
    ensures Causes(Registers(q, now), e'[id]) || (id in e && e[id] == e'[id])
  {
    if id in e { ExpirySettles(e, Registers(q, now), id, e'[id]); }
  }

  /** The call asks for this settlement. */
  predicate AsksFor(op: Op, id: Id, principal: string, requireAsker: bool, target: State, answer: Option<string>) {
    match op
    case Answers(x, p, text, _) => id == x && principal == p && !requireAsker && target.Answered?
      && answer == Some(text) && !Blank(text)
    case Rejects(x, p, _) => id == x && principal == p && !requireAsker && target.Rejected?
    case Cancels(x, p, _) => id == x && principal == p && requireAsker && target.Cancelled?
    case Withdraws(x, p, _) => id == x && principal == p && requireAsker && target.Withdrawn?
    case _ => false
  }

  lemma {:induction false} SettleOpCauses(e: Entries, op: Op, e': Entries, id: Id, principal: string,
                                          requireAsker: bool,
                                          target: State, answer: Option<string>, x: Id)
    requires Filed(e) && AsksFor(op, id, principal, requireAsker, target, answer)
    requires e' == Settling(e, id, principal, requireAsker, target, answer, op.now) && x in e' && !e'[x].state.Pending?
    ensures Causes(op, e'[x]) || (x in e && e[x] == e'[x])
  {
    SettlingCauses(e, op, id, principal, requireAsker, target, answer, x);
  }

  lemma {:induction false} OpCauses(max: nat, e: Entries, op: Op, e': Entries, id: Id)
    requires Filed(e) && (e, op, e') in Made(max) && id in e' && !e'[id].state.Pending?
    ensures Causes(op, e'[id]) || (id in e && e[id] == e'[id])
  {
    match op
    case Registers(q, now) => RegisteringCauses(max, e, q, now, e', id);
    case Expires(now) => ExpiryCauses(e, op, id);
    case Answers(x, p, text, now) =>
      if !Blank(text) { SettleOpCauses(e, op, e', x, p, false, Answered, Some(text), id); }
    case Rejects(x, p, now) => SettleOpCauses(e, op, e', x, p, false, Rejected, None, id);
    case Cancels(x, p, now) => SettleOpCauses(e, op, e', x, p, true, Cancelled, None, id);
    case Withdraws(x, p, now) => SettleOpCauses(e, op, e', x, p, true, Withdrawn, None, id);
  }

  lemma {:induction false} ExpirySettles(e: Entries, op: Op, id: Id, q: Question)
    requires id in e && !q.state.Pending?
    ensures q == ExpireEntries(e, op.now)[id] ==> Causes(op, q) || e[id] == q
  {
    if q == ExpireEntries(e, op.now)[id] { ExpiryCauses(e, op, id); }
  }

  lemma {:induction false} HistoryIsFiled(max: nat, es: seq<Entries>, ops: seq<Op>, n: nat)
    requires IsHistory(max, es, ops) && n < |es|
    ensures Filed(es[n])
  {
    if n > 0 {
      HistoryIsFiled(max, es, ops, n - 1);
      OpKeepsFiled(max, es[n - 1], ops[n - 1], es[n]);
    }
  }

  /**
   Every settled question was settled by an earlier call that could: answered or rejected by its
   answerer, cancelled or withdrawn by its asker, or expired or defaulted because its deadline had
   passed, by its default only if that was safe.
   */
  lemma {:induction false} SettlementHasCause(max: nat, es: seq<Entries>, ops: seq<Op>, n: nat, id: Id) returns (m: nat)
    requires IsHistory(max, es, ops) && n < |es| && id in es[n] && !es[n][id].state.Pending?
    ensures m < n && Causes(ops[m], es[n][id])
  {
    m := n - 1;
    HistoryIsFiled(max, es, ops, m);
    OpCauses(max, es[m], ops[m], es[n], id);
    if !Causes(ops[m], es[n][id]) { m := SettlementHasCause(max, es, ops, m, id); }
  }

  /** An answer in time, by the answerer, is taken; nothing else changes but what is past its deadline. */
  lemma {:induction false} AnswerIsTaken(max: nat, e: Entries, id: Id, text: string, now: int, e': Entries)
    requires id in e && e[id].state.Pending? && (e[id].expiresAt.Some? ==> now < e[id].expiresAt.value) && !Blank(text)
    requires (e, Answers(id, e[id].answerer, text, now), e') in Made(max)
    ensures id in e' && e'[id] == e[id].(state := Answered, answer := Some(text), answeredAt := Some(now))
    ensures e'.Keys == e.Keys && forall x :: x in e && x != id ==> e'[x] == e[x] || Late(Expires(now), e[x])
  {
    var expired := ExpireEntries(e, now);
    assert expired[id] == e[id];
    assert e' == expired[id := e[id].(state := Answered, answer := Some(text), answeredAt := Some(now))];
  }
}
