/**
 The human attention budget as a state machine: which questions are live, who waits on them,
 when the current batch opened, what was settled lately and which timeout defaults are owed.
 */
module Attention {
  import opened Outcome
  import opened Ordering
  import opened Questions

  datatype Scope = Scope(project: string, privacy: string)

  datatype Priority = Low | Normal | Blocking

  datatype Delivery = Delivery(
    chatId: string, toolCallId: string, askedAtMs: nat,
    questionId: string, questionType: string, text: string, options: Option<seq<string>>)

  datatype Request = Request(
    scope: Scope, kind: Kind, asker: string, answerer: string, text: string,
    options: Option<seq<string>>, priority: Priority, irreversible: bool,
    defaultAnswer: Option<string>, delivery: Option<Delivery>)

  datatype DedupKey = DedupKey(
    scope: Scope, kind: Kind, answerer: string, text: string,
    options: Option<seq<string>>, irreversible: bool, defaultAnswer: Option<string>)

  datatype AttentionError =
    | Invalid | Backpressure(outstanding: nat, cap: nat) | NotTracked | QuestionFailed(error: QuestionError)

  datatype Admission = Admission(questionId: Id, shared: bool, blockedRuns: nat)

  datatype Limits = Limits(batchWindowMs: nat, maxOutstanding: nat, defaultTimeoutSecs: nat)

  datatype Tracked = Tracked(
    key: DedupKey, scope: Scope, priority: Priority, origin: string, waiters: set<string>,
    deliveries: seq<(string, Delivery)>, presented: bool)

  datatype ExpiredDefault = ExpiredDefault(
    questionId: Id, defaultAnswer: string, deliveries: seq<Delivery>, expiresAt: int,
    priority: Priority, irreversible: bool)

  datatype Retired = Retired(
    question: Question, scope: Scope, priority: Priority, origin: string, waiters: set<string>,
    presented: bool, retiredAt: int, expiredDefault: Option<ExpiredDefault>)

  datatype Budget = Budget(
    byKey: map<DedupKey, Id>, tracked: map<Id, Tracked>, batchOpenedAt: Option<int>,
    retired: seq<Retired>, expiredDefaults: seq<ExpiredDefault>)

  datatype Prompt = Prompt(
    question: Question, scope: Scope, priority: Priority, blockedRuns: nat, deliveries: seq<Delivery>)

  const EMPTY_BUDGET: Budget := Budget(map[], map[], None, [], [])
  const SETTLED_HISTORY: nat := 64
  const NANOS_PER_MILLI: int := 1_000_000

  // ----- requests and their dedup key -----

  predicate ValidRequest(r: Request) {
    && !Blank(r.scope.project) && !Blank(r.scope.privacy)
    && !Blank(r.asker) && !Blank(r.answerer) && !Blank(r.text)
    && (r.defaultAnswer.Some? ==> r.priority.Low? && !r.irreversible && !ApprovalKind(r.kind))
  }

  /** `split_whitespace`: the maximal runs of non-space characters. */
  function Words(s: string): (ws: seq<string>)
    ensures forall i :: 0 <= i < |ws| ==> IsWord(ws[i])
    decreases |s|
  {
    if s == "" then []
    else if IsSpace(s[0]) then Words(s[1..])
    else
      var n := WordLength(s);
      [s[..n]] + Words(s[n..])
  }

  function WordLength(s: string): (n: nat)
    ensures n <= |s|
    ensures s != "" && !IsSpace(s[0]) ==> n > 0
    ensures forall i :: 0 <= i < n ==> !IsSpace(s[i])
    ensures n < |s| ==> IsSpace(s[n])
  {
    if s == "" || IsSpace(s[0]) then 0 else 1 + WordLength(s[1..])
  }

  predicate IsWord(w: string) {
    w != "" && forall i :: 0 <= i < |w| ==> !IsSpace(w[i])
  }

  function JoinWords(ws: seq<string>): string {
    if ws == [] then "" else if |ws| == 1 then ws[0] else ws[0] + " " + JoinWords(ws[1..])
  }

  function Normalize(text: string): string {
    JoinWords(Words(text))
  }

  function KeyOf(r: Request): DedupKey {
    DedupKey(r.scope, r.kind, r.answerer, Normalize(r.text), r.options, r.irreversible, r.defaultAnswer)
  }

  // ----- retiring -----

  /** The deliveries of the waiters that are still there, in joining order. */
  function LiveDeliveries(ds: seq<(string, Delivery)>, waiters: set<string>): (r: seq<Delivery>)
    ensures forall d :: d in r ==> exists w :: w in waiters && (w, d) in ds
    ensures forall w, d :: w in waiters && (w, d) in ds ==> d in r
  {
    if ds == [] then []
    else
      var rest := LiveDeliveries(ds[1..], waiters);
      assert forall d :: d in rest ==> exists w :: w in waiters && (w, d) in ds[1..];
      assert forall x :: x in ds ==> x == ds[0] || x in ds[1..];
      if ds[0].0 in waiters then
        assert (ds[0].0, ds[0].1) in ds;
        [ds[0].1] + rest
      else rest
  }

  function DefaultFor(t: Tracked, q: Question): (r: Option<ExpiredDefault>)
    ensures r.Some? ==> r.value.questionId == q.id && q.state.Defaulted?
    ensures r.Some? ==> forall d :: d in r.value.deliveries ==> exists w :: w in t.waiters && (w, d) in t.deliveries
    ensures r.Some? ==> forall w, d :: w in t.waiters && (w, d) in t.deliveries ==> d in r.value.deliveries
    ensures r.Some? <==> q.state.Defaulted? && q.answer.Some? && q.expiresAt.Some?
    ensures r.Some? ==> q.answer == Some(r.value.defaultAnswer) && q.expiresAt == Some(r.value.expiresAt)
    ensures r.Some? ==> r.value.priority == t.priority
    ensures r.Some? ==> r.value.irreversible == (q.irreversible || ApprovalKind(q.kind))
  {
    if AppliedDefault(q).Some? && q.expiresAt.Some? then
      Some(ExpiredDefault(q.id, AppliedDefault(q).value, LiveDeliveries(t.deliveries, t.waiters),
                          q.expiresAt.value, t.priority, IsIrreversible(q)))
    else None
  }

  /** Drop the first owed default of question `id`, if any. */
  function Forget(ds: seq<ExpiredDefault>, id: Id): seq<ExpiredDefault> {
    if ds == [] then []
    else if ds[0].questionId == id then ds[1..]
    else [ds[0]] + Forget(ds[1..], id)
  }

  /** Evict from the front until the history fits; an evicted default is no longer owed. */
  function TrimHistory(retired: seq<Retired>, owed: seq<ExpiredDefault>): (seq<Retired>, seq<ExpiredDefault>)
    decreases |retired|
  {
    if |retired| <= SETTLED_HISTORY then (retired, owed)
    else
      var first := retired[0].expiredDefault;
      TrimHistory(retired[1..], if first.Some? then Forget(owed, first.value.questionId) else owed)
  }

  /** `retire`: out of the live queue, into the history when the service still knows it. */
  function Retire(b: Budget, id: Id, e: Entries, now: int): Budget {
    if id !in b.tracked then b
    else
      var t := b.tracked[id];
      var gone := b.(tracked := b.tracked - {id}, byKey := b.byKey - {t.key});
      if id !in e then gone
      else
        var q := e[id];
        var owed := DefaultFor(t, q);
        var entry := Retired(q, t.scope, t.priority, t.origin, t.waiters, t.presented, now, owed);
        var (history, defaults) :=
          TrimHistory(b.retired + [entry], b.expiredDefaults + if owed.Some? then [owed.value] else []);
        gone.(retired := history, expiredDefaults := defaults)
  }

  // ----- sweeping -----

  predicate Settled(e: Entries, id: Id) {
    id !in e || !e[id].state.Pending?
  }

  /** A tracked question that only a batch can bring to the human. */
  predicate AwaitsBatch(t: Tracked) {
    !t.presented && !t.priority.Blocking?
  }

  /** Some live question has not been seen and is not urgent. */
  predicate SomeoneWaits(b: Budget) {
    exists id :: id in b.tracked && !b.tracked[id].presented && !b.tracked[id].priority.Blocking?
  }

  function CloseBatch(b: Budget): Budget {
    if exists id :: id in b.tracked && AwaitsBatch(b.tracked[id]) then b else b.(batchOpenedAt := None)
  }

  function RetireAll(b: Budget, order: seq<Id>, e: Entries, now: int): Budget
    decreases |order|
  {
    if order == [] then b else RetireAll(Retire(b, order[0], e, now), order[1..], e, now)
  }

  /** The settled questions are retired in whatever order the map lists them. */
  function Sweep(b: Budget, order: seq<Id>, e: Entries, now: int): Budget {
    CloseBatch(RetireAll(b, order, e, now))
  }

  ghost predicate ListsSettled(order: seq<Id>, b: Budget, e: Entries) {
    && NoDup(order)
    && (forall id :: id in order <==> id in b.tracked && Settled(e, id))
  }

  /** One sweep: the order it retired in, the service as it saw it, and the budget it left. */
  datatype SweepRecord = SweepRecord(order: seq<Id>, entries: Entries, after: Budget)

  ghost predicate IsSweep(b: Budget, s: SweepRecord, now: int) {
    && ListsSettled(s.order, b, s.entries)
    && s.after == Sweep(b, s.order, s.entries, now)
    && (forall id :: id in s.after.tracked ==> !Settled(s.entries, id))
  }

  /** After a sweep a batch is open only while somebody waits for it. */
  lemma SweptBatchIsAwaited(b: Budget, s: SweepRecord, now: int)
    requires IsSweep(b, s, now) && s.after.batchOpenedAt.Some?
    ensures SomeoneWaits(s.after)
  {
    var id :| id in s.after.tracked && AwaitsBatch(s.after.tracked[id]);
  }

  // ----- joining and leaving -----

  function Higher(p: Priority, q: Priority): Priority {
    if p.Low? then q else if p.Blocking? || q.Low? then p else q
  }

  function Share(b: Budget, id: Id, r: Request, waiter: string): Budget
    requires id in b.tracked
  {
    var t := b.tracked[id];
    var ds := if r.delivery.Some? && (waiter, r.delivery.value) !in t.deliveries
              then t.deliveries + [(waiter, r.delivery.value)] else t.deliveries;
    b.(tracked := b.tracked[id := t.(waiters := t.waiters + {waiter}, deliveries := ds,
                                     priority := Higher(t.priority, r.priority))])
  }

  /** A question the service has just registered becomes live with its first waiter. */
  function Admit(b: Budget, id: Id, r: Request, waiter: string, now: int): Budget {
    var t := Tracked(KeyOf(r), r.scope, r.priority, waiter, {waiter},
                     if r.delivery.Some? then [(waiter, r.delivery.value)] else [], false);
    b.(batchOpenedAt := if !r.priority.Blocking? && b.batchOpenedAt.None? then Some(now) else b.batchOpenedAt,
       byKey := b.byKey[KeyOf(r) := id],
       tracked := b.tracked[id := t])
  }

  function RemoveWaiter(b: Budget, id: Id, waiter: string): Budget
    requires id in b.tracked
  {
    var t := b.tracked[id];
    b.(tracked := b.tracked[id := t.(waiters := t.waiters - {waiter})])
  }

  // ----- presenting -----

  predicate BatchDue(b: Budget, now: int, limits: Limits) {
    b.batchOpenedAt.Some? && b.batchOpenedAt.value + limits.batchWindowMs * NANOS_PER_MILLI <= now
  }

  predicate IsDue(b: Budget, e: Entries, now: int, limits: Limits, id: Id) {
    && id in b.tracked && id in e && !b.tracked[id].presented
    && (b.tracked[id].priority.Blocking? || BatchDue(b, now, limits))
  }

  function DueIds(b: Budget, e: Entries, now: int, limits: Limits): set<Id> {
    set id | id in b.tracked && IsDue(b, e, now, limits, id)
  }

  function Present(b: Budget, e: Entries, now: int, limits: Limits): Budget {
    b.(tracked := map id | id in b.tracked ::
                    if IsDue(b, e, now, limits, id) then b.tracked[id].(presented := true) else b.tracked[id],
       batchOpenedAt := if BatchDue(b, now, limits) then None else b.batchOpenedAt)
  }

  function PromptFor(b: Budget, e: Entries, id: Id): Prompt
    requires id in b.tracked && id in e
  {
    var t := b.tracked[id];
    Prompt(e[id], t.scope, t.priority, |t.waiters|, LiveDeliveries(t.deliveries, t.waiters))
  }

  /** Most stalled work first, then the oldest ask, then the id. */
  predicate RanksBefore(p: Prompt, q: Prompt) {
    || p.blockedRuns > q.blockedRuns
    || (p.blockedRuns == q.blockedRuns
        && (p.question.askedAt < q.question.askedAt
            || (p.question.askedAt == q.question.askedAt && LexLE(p.question.id, q.question.id))))
  }

  /** More runs wait for the first; or as many, but it was asked earlier; or at the same time, and the id decides. */
  predicate StallsMore(p: Prompt, q: Prompt) {
    && p.blockedRuns >= q.blockedRuns
    && (p.blockedRuns == q.blockedRuns ==> p.question.askedAt <= q.question.askedAt)
    && (p.blockedRuns == q.blockedRuns && p.question.askedAt == q.question.askedAt ==>
       LexLE(p.question.id, q.question.id))
  }

  /** The prompt is the question, with the number of runs that wait and the deliveries owed to them. */
  ghost predicate Shows(p: Prompt, q: Question, t: Tracked) {
    && p.question == q && p.scope == t.scope && p.priority == t.priority && p.blockedRuns == |t.waiters|
    && forall d :: d in p.deliveries <==> exists w :: w in t.waiters && (w, d) in t.deliveries
  }

  lemma RanksBeforeIsTotalPreorder()
    ensures TotalPreorder(RanksBefore)
  {
    forall p: Prompt, q: Prompt ensures RanksBefore(p, q) || RanksBefore(q, p) {
      LexTotal(p.question.id, q.question.id);
    }
    forall p: Prompt, q: Prompt, r: Prompt | RanksBefore(p, q) && RanksBefore(q, r) ensures RanksBefore(p, r) {
      var a, b, c := p.question.id, q.question.id, r.question.id;
      if LexLess(a, b) && LexLess(b, c) { LexTransitive(a, b, c); }
    }
  }

  // ----- draining the owed defaults -----

  function DefaultsDue(ds: seq<ExpiredDefault>, now: int): seq<ExpiredDefault> {
    if ds == [] then []
    else (if ds[0].expiresAt <= now then [ds[0]] else []) + DefaultsDue(ds[1..], now)
  }

  function DefaultsPending(ds: seq<ExpiredDefault>, now: int): seq<ExpiredDefault> {
    if ds == [] then []
    else (if ds[0].expiresAt <= now then [] else [ds[0]]) + DefaultsPending(ds[1..], now)
  }

  // ----- the machine -----

  /**
   The budget beside the service and the clock. `handed` and `emitted` record, in order, every
   question ever given out by `take_due` and every default ever given out by
   `take_expired_defaults`.
   */
  datatype World = World(
    entries: Entries, used: set<Id>, now: int, budget: Budget, handed: seq<Id>, emitted: seq<ExpiredDefault>)

  datatype Step =
    | ServiceStep
    | RetireStep(id: Id)
    | CloseBatchStep
    | ShareStep(id: Id, request: Request, waiter: string)
    | AdmitStep(id: Id, request: Request, waiter: string)
    | LeaveStep(id: Id, waiter: string)
    | LastLeaveStep(id: Id, waiter: string)
    | PresentStep(order: seq<Id>, seen: Entries)
    | DrainStep

  /**
   One atomic action of some thread. The budget's mutex makes each public call a block of these;
   the service is not behind that mutex, so `ServiceStep` may fall between any two of them.
   */
  ghost predicate Next(limits: Limits, w: World, step: Step, w': World) {
    var b := w.budget;
    match step
    case ServiceStep =>
      // other users of the service act, and time passes
      Evolves(w.used, w.entries, w'.used, w'.entries) && w.now <= w'.now
      && w' == w.(entries := w'.entries, used := w'.used, now := w'.now)
    case RetireStep(id) =>
      Settled(w.entries, id) && w' == w.(budget := Retire(b, id, w.entries, w.now))
    case CloseBatchStep =>
      w' == w.(budget := CloseBatch(b))
    case ShareStep(id, r, waiter) =>
      ValidRequest(r) && KeyOf(r) in b.byKey && b.byKey[KeyOf(r)] == id && id in b.tracked
      && w' == w.(budget := Share(b, id, r, waiter))
    case AdmitStep(id, r, waiter) =>
      && ValidRequest(r) && KeyOf(r) !in b.byKey
      && (r.priority.Low? ==> |b.tracked| < limits.maxOutstanding)
      && id !in w.used
      && Evolves(w.used, w.entries, w.used + {id}, w'.entries)
      && id in w'.entries && AskedFor(w'.entries[id], r, w.now)
      && w' == w.(entries := w'.entries, used := w.used + {id}, budget := Admit(b, id, r, waiter, w.now))
    case LeaveStep(id, waiter) =>
      id in b.tracked && b.tracked[id].waiters - {waiter} != {}
      && w' == w.(budget := RemoveWaiter(b, id, waiter))
    case LastLeaveStep(id, waiter) =>
      id in b.tracked && b.tracked[id].waiters - {waiter} == {} && Settled(w.entries, id)
      && w' == w.(budget := Retire(RemoveWaiter(b, id, waiter), id, w.entries, w.now))
    case PresentStep(order, seen) =>
      // the service is asked once for each question, and may act in between
      && NoDup(order) && (forall id :: id in order <==> IsDue(b, seen, w.now, limits, id))
      && Evolves(w.used, w.entries, w'.used, w'.entries)
      && (forall id :: id in b.tracked ==> SeenBetween(w, seen, w', id))
      && w' == w.(entries := w'.entries, used := w'.used, budget := Present(b, seen, w.now, limits),
                  handed := w.handed + order)
    case DrainStep =>
      w' == w.(budget := b.(expiredDefaults := DefaultsPending(b.expiredDefaults, w.now)),
               emitted := w.emitted + DefaultsDue(b.expiredDefaults, w.now))
  }

  /** What was seen of question `id` is how the service had it at some moment from `w` to `w'`. */
  ghost predicate SeenBetween(w: World, seen: Entries, w': World, id: Id) {
    exists used, e :: Evolves(w.used, w.entries, used, e) && Evolves(used, e, w'.used, w'.entries)
                      && (id in seen <==> id in e) && (id in seen ==> seen[id] == e[id])
  }

  /** The question puts to the answerer just what was requested. */
  predicate Represents(q: Question, r: Request) {
    && q.kind == r.kind && q.asker == r.asker && q.answerer == r.answerer && q.text == r.text && q.options == r.options
    && q.irreversible == r.irreversible && q.defaultAnswer == r.defaultAnswer
  }

  predicate AskedFor(q: Question, r: Request, now: int) {
    q.state.Pending? && q.askedAt == now && Represents(q, r)
  }

  ghost predicate Init(w: World) {
    w.budget == EMPTY_BUDGET && w.handed == [] && w.emitted == []
    && w.entries.Keys <= w.used && SoundEntries(w.entries)
  }

  /** A run: worlds joined by steps, starting with an empty budget. */
  ghost predicate IsRun(limits: Limits, worlds: seq<World>, steps: seq<Step>) {
    && |worlds| == |steps| + 1 && Init(worlds[0])
    && forall i :: 0 <= i < |steps| ==> StepAt(limits, worlds, steps, i)
  }

  ghost predicate StepAt(limits: Limits, worlds: seq<World>, steps: seq<Step>, i: nat)
    requires |worlds| == |steps| + 1 && i < |steps|
  {
    Next(limits, worlds[i], steps[i], worlds[i + 1])
  }
}
