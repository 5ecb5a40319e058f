/**
 The tracked question service: one record per question, `Pending` the only state that can
 still change. The registry is shared with every other question family, so the attention
 budget may rely only on `Evolves`, the relation all its operations are shown to satisfy.
 Instants are integers in nanoseconds.
 */
module Questions {
  import opened Outcome
  import opened Ordering

  type Id = string

  datatype Kind = UserInput | AgentParent | BoardPlanner | PlanApproval | PermissionEscalation

  datatype State = Pending | Answered | Defaulted | Rejected | Cancelled | Withdrawn | Expired

  datatype Question = Question(
    id: Id, kind: Kind, asker: string, answerer: string, correlation: string, text: string,
    options: Option<seq<string>>, state: State, askedAt: int, expiresAt: Option<int>,
    irreversible: bool, defaultAnswer: Option<string>,
    answer: Option<string>, answeredAt: Option<int>)

  datatype QuestionError =
    | InvalidQuestion | Capacity | Duplicate | NotFound | NotAsker | NotAnswerer
    | AlreadyAnswered | AlreadySettled(state: State)

  type Entries = map<Id, Question>

  const NANOS_PER_SECOND: int := 1_000_000_000

  predicate IsSpace(c: char) {
    c == ' ' || ('\t' <= c && c <= '\r') || c == '\U{0085}' || c == '\U{00A0}' || c == '\U{1680}'
    || ('\U{2000}' <= c && c <= '\U{200A}') || c == '\U{2028}' || c == '\U{2029}' || c == '\U{202F}'
    || c == '\U{205F}' || c == '\U{3000}'
  }

  /** `value.trim().is_empty()` */
  predicate Blank(s: string) {
    s == "" || (IsSpace(s[0]) && Blank(s[1..]))
  }

  predicate ApprovalKind(kind: Kind) {
    kind.PlanApproval? || kind.PermissionEscalation?
  }

  predicate IsIrreversible(q: Question) {
    q.irreversible || ApprovalKind(q.kind)
  }

  function Defaultable(q: Question): Option<string> {
    if IsIrreversible(q) then None else q.defaultAnswer
  }

  /** The default that was applied, when nobody answered in time. */
  function AppliedDefault(q: Question): Option<string> {
    if q.state.Defaulted? then q.answer else None
  }

  predicate ValidQuestion(q: Question) {
    && !Blank(q.id) && !Blank(q.asker) && !Blank(q.answerer) && !Blank(q.correlation) && !Blank(q.text)
    && (q.expiresAt.Some? ==> q.askedAt < q.expiresAt.value)
    && (q.state.Answered? ==> q.answer.Some? && q.answer.value != "" && q.answeredAt.Some?)
    && (q.defaultAnswer.Some? ==> !Blank(q.defaultAnswer.value) && !IsIrreversible(q))
    && (q.state.Defaulted? ==> q.defaultAnswer.Some? && q.answer == q.defaultAnswer && q.answeredAt.Some?)
  }

  ghost predicate ValidEntries(e: Entries) {
    forall id :: id in e ==> e[id].id == id && ValidQuestion(e[id])
  }

  /** Records are filed under their id, and only a reversible question was ever settled by its own default. */
  ghost predicate SoundEntries(e: Entries) {
    forall id :: id in e ==>
      && e[id].id == id
      && (e[id].state.Defaulted? ==>
            e[id].defaultAnswer.Some? && e[id].answer == e[id].defaultAnswer && !IsIrreversible(e[id]))
  }

  /** `q2` is a record the service may hold for a question it once held as `q1`. */
  ghost predicate Later(q1: Question, q2: Question) {
    if q1.state.Pending?
    then q2 == q1.(state := q2.state, answer := q2.answer, answeredAt := q2.answeredAt)
    else q2 == q1
  }

  /**
   What any number of service operations, by any callers, may do to the entries. `used` holds
   every id ever registered: a forgotten id never comes back and a settled record never changes.
   */
  ghost predicate Evolves(used1: set<Id>, e1: Entries, used2: set<Id>, e2: Entries) {
    && used1 <= used2 && e2.Keys <= used2 && SoundEntries(e2)
    && (forall id :: id in e2 && id in used1 ==> id in e1 && Later(e1[id], e2[id]))
  }

  lemma EvolvesTransitive(u1: set<Id>, e1: Entries, u2: set<Id>, e2: Entries, u3: set<Id>, e3: Entries)
    requires e1.Keys <= u1
    requires Evolves(u1, e1, u2, e2) && Evolves(u2, e2, u3, e3)
    ensures Evolves(u1, e1, u3, e3)
  {
  }

  // ----- expiry -----

  /** The single deadline path: a safe default settles as `Defaulted`, anything else expires. */
  function ExpireQuestion(q: Question, now: int): (r: Question)
    ensures Later(q, r)
    ensures ValidQuestion(q) ==> ValidQuestion(r)
    ensures r.state.Pending? ==> r.expiresAt.None? || now < r.expiresAt.value
  {
    if !q.state.Pending? || q.expiresAt.None? || now < q.expiresAt.value then q
    else if Defaultable(q).Some?
    then q.(state := Defaulted, answer := Defaultable(q), answeredAt := Some(now))
    else q.(state := Expired)
  }

  function ExpireEntries(e: Entries, now: int): (r: Entries)
    ensures r.Keys == e.Keys
    ensures forall id :: id in e ==> r[id] == ExpireQuestion(e[id], now)
  {
    map id | id in e :: ExpireQuestion(e[id], now)
  }

  lemma ValidIsSound(e: Entries)
    requires ValidEntries(e)
    ensures SoundEntries(e)
  {
  }

  lemma ExpireEvolves(used: set<Id>, e: Entries, now: int)
    requires ValidEntries(e) && e.Keys <= used
    ensures Evolves(used, e, used, ExpireEntries(e, now)) && ValidEntries(ExpireEntries(e, now))
  {
    var r := ExpireEntries(e, now);
    forall id | id in r ensures r[id].id == id && ValidQuestion(r[id]) && Later(e[id], r[id]) {
      assert r[id] == ExpireQuestion(e[id], now);
    }
    ValidIsSound(r);
  }

  lemma PruneEvolves(used: set<Id>, e: Entries, r: Entries)
    requires ValidEntries(e) && e.Keys <= used
    requires r.Keys <= e.Keys && forall id :: id in r ==> r[id] == e[id]
    ensures Evolves(used, e, used, r) && ValidEntries(r)
  {
  }

  lemma InsertEvolves(used: set<Id>, e: Entries, q: Question)
    requires ValidEntries(e) && e.Keys <= used && q.id !in used && ValidQuestion(q)
    ensures Evolves(used, e, used + {q.id}, e[q.id := q]) && ValidEntries(e[q.id := q])
  {
  }

  lemma UpdateEvolves(used: set<Id>, e: Entries, q: Question)
    requires ValidEntries(e) && e.Keys <= used && q.id in e && ValidQuestion(q) && Later(e[q.id], q)
    ensures Evolves(used, e, used, e[q.id := q]) && ValidEntries(e[q.id := q])
  {
  }

  // ----- pruning settled records -----

  function SettledIds(e: Entries): set<Id> {
    set id | id in e && !e[id].state.Pending?
  }

  /** The order in which settled records are forgotten: oldest ask first, then by id. */
  predicate OlderThan(a: Question, b: Question) {
    a.askedAt < b.askedAt || (a.askedAt == b.askedAt && LexLE(a.id, b.id))
  }

  /** Only settled records go, every one that goes is older than every one that stays. */
  ghost predicate PrunedTo(e: Entries, keep: nat, r: Entries) {
    && r.Keys <= e.Keys
    && (forall id :: id in r ==> r[id] == e[id])
    && (forall id :: id in e && id !in r ==> !e[id].state.Pending?)
    && |SettledIds(r)| == (if |SettledIds(e)| <= keep then |SettledIds(e)| else keep)
    && (forall gone, kept :: gone in e && gone !in r && kept in SettledIds(r) ==> OlderThan(e[gone], e[kept]))
  }

  lemma OlderThanTotal(a: Question, b: Question, c: Question)
    ensures OlderThan(a, b) || OlderThan(b, a)
    ensures OlderThan(a, b) && OlderThan(b, c) ==> OlderThan(a, c)
  {
    LexTotal(a.id, b.id);
    if LexLess(a.id, b.id) && LexLess(b.id, c.id) { LexTransitive(a.id, b.id, c.id); }
  }

  // ----- what is refused -----

  predicate CorrelationTaken(e: Entries, correlation: string) {
    exists id :: id in e && e[id].state.Pending? && e[id].correlation == correlation
  }

  function PendingCount(e: Entries): nat {
    |e.Keys - SettledIds(e)|
  }

  /** A known id is refused, and a pending question also for a taken correlation or for too many pending ones. */
  function RegisterRefusal(e: Entries, q: Question, maxPending: nat): Option<QuestionError> {
    if q.id in e then Some(Duplicate)
    else if q.state.Pending? && CorrelationTaken(e, q.correlation) then Some(Duplicate)
    else if q.state.Pending? && PendingCount(e) >= maxPending then Some(Capacity)
    else None
  }

  /** Filing a valid question under an id never used before, and pruning, is a lawful evolution. */
  lemma FilingEvolves(used: set<Id>, e: Entries, now: int, q: Question, keep: nat, r: Entries)
    requires ValidEntries(e) && e.Keys <= used && ValidQuestion(q)
             && PrunedTo(ExpireEntries(e, now)[q.id := q], keep, r)
    ensures ValidEntries(r) && (q.id !in used ==> Evolves(used, e, used + {q.id}, r))
    ensures q.state.Pending? ==> q.id in r && r[q.id] == q
  {
    var expired := ExpireEntries(e, now);
    ExpireEvolves(used, e, now);
    FilingIsValid(expired, q, keep, r);
    if q.id !in used { FreshFilingEvolves(used, e, expired, q, r); }
  }

  lemma FilingIsValid(e: Entries, q: Question, keep: nat, r: Entries)
    requires ValidEntries(e) && ValidQuestion(q) && PrunedTo(e[q.id := q], keep, r)
    ensures ValidEntries(r) && (q.state.Pending? ==> q.id in r && r[q.id] == q)
    ensures IsPart(r, e[q.id := q])
  {
    forall id | id in r ensures r[id].id == id && ValidQuestion(r[id]) { assert r[id] == e[q.id := q][id]; }
  }

  /** Some of the records, unchanged. */
  ghost predicate IsPart(r: Entries, e: Entries) {
    r.Keys <= e.Keys && forall id :: id in r ==> r[id] == e[id]
  }

  lemma FreshFilingEvolves(used: set<Id>, e: Entries, expired: Entries, q: Question, r: Entries)
    requires e.Keys <= used && Evolves(used, e, used, expired) && ValidEntries(expired) && ValidQuestion(q)
             && q.id !in used
    requires IsPart(r, expired[q.id := q])
    ensures Evolves(used, e, used + {q.id}, r)
  {
    var all, filed := used + {q.id}, expired[q.id := q];
    InsertEvolves(used, expired, q);
    PruneEvolves(all, filed, r);
    EvolvesTransitive(used, e, used, expired, all, filed);
    EvolvesTransitive(used, e, all, filed, all, r);
  }

  predicate ValidDraft(q: Question, seconds: nat, maxExpirySecs: nat) {
    0 < seconds <= maxExpirySecs && ValidQuestion(q)
  }

  /** Why a draft cannot be asked at this moment, if it cannot. */
  function AskRefusal(e: Entries, now: int, q: Question, seconds: nat, maxExpirySecs: nat,
                      maxPending: nat): Option<QuestionError> {
    if !ValidDraft(q, seconds, maxExpirySecs) then Some(InvalidQuestion)
    else RegisterRefusal(ExpireEntries(e, now), q, maxPending)
  }

  function Draft(kind: Kind, asker: string, answerer: string, correlation: string, text: string,
                 options: Option<seq<string>>,
                 irreversible: bool, defaultAnswer: Option<string>, seconds: nat, id: Id, now: int): Question {
    Question(id, kind, asker, answerer, correlation, text, options, Pending, now,
        Some(now + seconds * NANOS_PER_SECOND),
             irreversible, defaultAnswer, None, None)
  }

  /** Who may settle a question, and what becomes of it. */
  function Settlement(e: Entries, id: Id, principal: string, requireAsker: bool, target: State, answer: Option<string>,
                      now: int)
    : Result<Question, QuestionError>
  {
    if id !in e then Err(NotFound)
    else
      var q := e[id];
      if principal != (if requireAsker then q.asker else q.answerer)
      then Err(if requireAsker then NotAsker else NotAnswerer)
      else if q.state.Answered? then Err(AlreadyAnswered)
      else if !q.state.Pending? then Err(AlreadySettled(q.state))
      else if target.Answered? then Ok(q.(state := target, answer := answer, answeredAt := Some(now)))
      else Ok(q.(state := target))
  }

  function AfterSettlement(e: Entries, id: Id, r: Result<Question, QuestionError>): Entries {
    if r.Ok? then e[id := r.value] else e
  }

  /** A settlement keeps every record sound and leaves nothing pending for the principal it was asked by. */
  lemma SettlementEvolves(used: set<Id>, e: Entries, id: Id, principal: string, requireAsker: bool, target: State,
                          answer: Option<string>, now: int)
    requires ValidEntries(e) && e.Keys <= used && !target.Pending? && !target.Defaulted?
    requires target.Answered? ==> answer.Some? && !Blank(answer.value)
    ensures var e' := AfterSettlement(e, id, Settlement(e, id, principal, requireAsker, target, answer, now));
            && Evolves(used, e, used, e') && ValidEntries(e')
            && (id in e' && principal == (if requireAsker then e'[id].asker else e'[id].answerer) ==>
               !e'[id].state.Pending?)
  {
    var r := Settlement(e, id, principal, requireAsker, target, answer, now);
    if r.Ok? {
      assert ValidQuestion(e[id]) && e[id].id == id;
      UpdateEvolves(used, e, r.value);
    } else {
      PruneEvolves(used, e, e);
    }
  }

  // ----- the service -----

  class QuestionRegistry {
    var entries: Entries
    const maxPending: nat
    const defaultExpirySecs: nat
    const maxExpirySecs: nat

    ghost predicate Valid()
      reads this
    {
      ValidEntries(entries)
    }

    constructor (maxPending: nat, defaultExpirySecs: nat, maxExpirySecs: nat)
      ensures Valid() && entries == map[]
      ensures this.maxPending == maxPending && this.defaultExpirySecs == defaultExpirySecs
      ensures this.maxExpirySecs == maxExpirySecs
    {
      entries := map[];
      this.maxPending, this.defaultExpirySecs, this.maxExpirySecs := maxPending, defaultExpirySecs, maxExpirySecs;
    }

    /** The settled record every other settled record is at least as young as. */
    method OldestSettled(e: Entries) returns (oldest: Id)
      requires SettledIds(e) != {}
      ensures oldest in SettledIds(e)
      ensures forall id :: id in SettledIds(e) ==> OlderThan(e[oldest], e[id])
    {
      var todo := SettledIds(e);
      oldest :| oldest in todo;
      todo := todo - {oldest};
      while todo != {}
        invariant todo <= SettledIds(e) && oldest in SettledIds(e)
        invariant forall id :: id in SettledIds(e) - todo ==> OlderThan(e[oldest], e[id])
        decreases todo
      {
        var id :| id in todo;
        forall other | other in SettledIds(e) - todo
          ensures !OlderThan(e[oldest], e[id]) ==> OlderThan(e[id], e[other])
        {
          OlderThanTotal(e[oldest], e[id], e[id]);
          OlderThanTotal(e[id], e[oldest], e[other]);
        }
        OlderThanTotal(e[id], e[id], e[id]);
        if !OlderThan(e[oldest], e[id]) { oldest := id; }
        todo := todo - {id};
      }
    }

    /** `prune_locked` */
    method Prune()
      modifies this`entries
      ensures PrunedTo(old(entries), maxPending, entries)
    {
      while |SettledIds(entries)| > maxPending
        invariant entries.Keys <= old(entries).Keys
        invariant forall id :: id in entries ==> entries[id] == old(entries)[id]
        invariant forall id :: id in old(entries) && id !in entries ==> !old(entries)[id].state.Pending?
        invariant |SettledIds(entries)| >= if |SettledIds(old(entries))| <= maxPending then |SettledIds(old(entries))|
                  else maxPending
        invariant |SettledIds(old(entries))| <= maxPending ==> entries == old(entries)
        invariant forall gone, kept :: gone in old(entries) && gone !in entries && kept in SettledIds(entries)
                    ==> OlderThan(old(entries)[gone], old(entries)[kept])
        decreases |SettledIds(entries)|
      {
        var victim := OldestSettled(entries);
        ghost var before := entries;
        entries := entries - {victim};
        assert SettledIds(entries) == SettledIds(before) - {victim};
      }
    }

    /** `expire`: afterwards no pending question is past its deadline. */
    method Expire(now: int, ghost used: set<Id>)
      requires Valid() && entries.Keys <= used
      modifies this`entries
      ensures Valid() && Evolves(used, old(entries), used, entries)
      ensures PrunedTo(ExpireEntries(old(entries), now), maxPending, entries)
      ensures forall id :: id in entries && entries[id].state.Pending? ==>
                entries[id].expiresAt.None? || now < entries[id].expiresAt.value
    {
      ExpireEvolves(used, entries, now);
      entries := ExpireEntries(entries, now);
      ghost var expired := entries;
      Prune();
      PruneEvolves(used, expired, entries);
      EvolvesTransitive(used, old(entries), used, expired, used, entries);
    }

    /** `ask`: refused exactly as `AskRefusal` says; `id` is the caller's own or the random one the service draws. */
    method Ask(kind: Kind, asker: string, answerer: string, correlation: string, text: string,
               options: Option<seq<string>>, irreversible: bool, defaultAnswer: Option<string>,
               expirySecs: Option<nat>, id: Id, now: int, ghost used: set<Id>)
      returns (r: Result<Question, QuestionError>)
      requires Valid() && entries.Keys <= used
      modifies this`entries
      ensures Valid()
      ensures r.Err? ==> Evolves(used, old(entries), used, entries)
      ensures r.Ok? && id !in used ==> Evolves(used, old(entries), used + {id}, entries)
      ensures var seconds := if expirySecs.Some? then expirySecs.value else defaultExpirySecs;
              var q := Draft(kind, asker, answerer, correlation, text, options, irreversible, defaultAnswer, seconds,
                id, now);
              var refusal := old(AskRefusal(entries, now, q, seconds, maxExpirySecs, maxPending));
              r == if refusal.Some? then Err(refusal.value) else Ok(q)
      ensures r.Ok? ==> id in entries && entries[id] == r.value
      ensures r.Ok? ==>
                && r.value.id == id && r.value.kind == kind && r.value.asker == asker && r.value.answerer == answerer
                && r.value.text == text && r.value.options == options && r.value.irreversible == irreversible
                && r.value.defaultAnswer == defaultAnswer && r.value.state.Pending? && r.value.askedAt == now
                && var seconds := if expirySecs.Some? then expirySecs.value else defaultExpirySecs;
                   r.value.expiresAt == Some(now + 1_000_000_000 * seconds)
    {
      var seconds := if expirySecs.Some? then expirySecs.value else defaultExpirySecs;
      PruneEvolves(used, entries, entries);
      if seconds == 0 || seconds > maxExpirySecs { return Err(InvalidQuestion); }
      var q := Draft(kind, asker, answerer, correlation, text, options, irreversible, defaultAnswer, seconds, id, now);
      if !ValidQuestion(q) { return Err(InvalidQuestion); }
      var registered := Register(q, now, used);
      return if registered.Ok? then Ok(q) else Err(registered.error);
    }

    /** `register`, for any record: pending or settled, with a known id or a new one. */
    method Register(q: Question, now: int, ghost used: set<Id>) returns (r: Result<(), QuestionError>)
      requires Valid() && entries.Keys <= used
      modifies this`entries
      ensures Valid()
      ensures r.Err? ==> Evolves(used, old(entries), used, entries)
      ensures r.Ok? && q.id !in used ==> Evolves(used, old(entries), used + {q.id}, entries)
      ensures r.Ok? && q.state.Pending? ==> q.id in entries && entries[q.id] == q
      ensures var expired := ExpireEntries(old(entries), now);
              var refusal := RegisterRefusal(expired, q, maxPending);
              if !ValidQuestion(q) then r == Err(InvalidQuestion) && entries == old(entries)
              else if refusal.Some? then r == Err(refusal.value) && entries == expired
              else r == Ok(()) && PrunedTo(expired[q.id := q], maxPending, entries)
    {
      if !ValidQuestion(q) {
        PruneEvolves(used, entries, entries);
        return Err(InvalidQuestion);
      }
      ExpireEvolves(used, entries, now);
      entries := ExpireEntries(entries, now);
      if q.id in entries { return Err(Duplicate); }
      if q.state.Pending? {
        if CorrelationTaken(entries, q.correlation) { return Err(Duplicate); }
        if PendingCount(entries) >= maxPending { return Err(Capacity); }
      }
      File(q);
      FilingEvolves(used, old(entries), now, q, maxPending, entries);
      return Ok(());
    }

    method File(q: Question)
      modifies this`entries
      ensures PrunedTo(old(entries)[q.id := q], maxPending, entries)
    {
      entries := entries[q.id := q];
      Prune();
    }

    /** `settle`, behind `answer`, `reject`, `cancel` and `withdraw`: exactly one settlement wins. */
    method Settle(id: Id, principal: string, requireAsker: bool, target: State, answer: Option<string>,
                  now: int, ghost used: set<Id>)
      returns (r: Result<Question, QuestionError>)
      requires Valid() && entries.Keys <= used
      requires !target.Pending? && !target.Defaulted?
      requires target.Answered? ==> answer.Some? && !Blank(answer.value)
      modifies this`entries
      ensures Valid() && Evolves(used, old(entries), used, entries)
      ensures r == Settlement(ExpireEntries(old(entries), now), id, principal, requireAsker, target, answer, now)
      ensures entries == AfterSettlement(ExpireEntries(old(entries), now), id, r)
      ensures id in entries && principal == (if requireAsker then entries[id].asker else entries[id].answerer)
              ==> !entries[id].state.Pending?
    {
      ExpireEvolves(used, entries, now);
      entries := ExpireEntries(entries, now);
      ghost var expired := entries;
      SettlementEvolves(used, expired, id, principal, requireAsker, target, answer, now);
      EvolvesTransitive(used, old(entries), used, expired, used,
                        AfterSettlement(expired, id,
                            Settlement(expired, id, principal, requireAsker, target, answer, now)));
      if id !in entries { return Err(NotFound); }
      var q := entries[id];
      if principal != (if requireAsker then q.asker else q.answerer) {
        return Err(if requireAsker then NotAsker else NotAnswerer);
      }
      if q.state.Answered? { return Err(AlreadyAnswered); }
      if !q.state.Pending? { return Err(AlreadySettled(q.state)); }
      q := q.(state := target);
      if target.Answered? { q := q.(answer := answer, answeredAt := Some(now)); }
      entries := entries[id := q];
      return Ok(q);
    }
  }
}
