/** The consumer of the budget: due prompts grouped per tool call, timeout defaults turned into answers. */
module AttentionDelivery {
  import opened Outcome
  import opened Ordering
  import opened Questions
  import opened Attention

  // ----- deliver_due -----

  type SetKey = (string, string)

  datatype Group = Group(key: SetKey, askedAtMs: nat, questions: seq<Delivery>)

  function SetOf(d: Delivery): SetKey {
    (d.chatId, d.toolCallId)
  }

  /** The deliveries that belong to one tool call, in arrival order. */
  function WithKey(ds: seq<Delivery>, key: SetKey): seq<Delivery> {
    if ds == [] then []
    else WithKey(ds[..|ds| - 1], key) + if SetOf(ds[|ds| - 1]) == key then [ds[|ds| - 1]] else []
  }

  /** One group per tool call, each holding all of its questions in arrival order. */
  ghost predicate IsGrouping(ds: seq<Delivery>, gs: seq<Group>) {
    && (forall i, j :: 0 <= i < j < |gs| ==> gs[i].key != gs[j].key)
    && (forall i :: 0 <= i < |gs| ==> Holds(ds, gs[i]))
    && (forall d :: d in ds ==> HasGroup(gs, SetOf(d)))
  }

  ghost predicate HasGroup(gs: seq<Group>, key: SetKey) {
    exists j :: 0 <= j < |gs| && gs[j].key == key
  }

  /** The position map is the inverse of the vector of groups. */
  ghost predicate PositionsOk(positions: map<SetKey, nat>, gs: seq<Group>) {
    && (forall k :: k in positions ==> positions[k] < |gs| && gs[positions[k]].key == k)
    && (forall i :: 0 <= i < |gs| ==> gs[i].key in positions && positions[gs[i].key] == i)
  }

  /** The grouping loop of `deliver_due`: a position map beside a growing vector. */
  method GroupDeliveries(ds: seq<Delivery>) returns (groups: seq<Group>)
    ensures IsGrouping(ds, groups)
  {
    groups := [];
    var positions: map<SetKey, nat> := map[];
    for n := 0 to |ds|
      invariant PositionsOk(positions, groups) && IsGrouping(ds[..n], groups)
    {
      var positions', groups' := FileDelivery(ds[..n], positions, groups, ds[n]);
      assert ds[..n + 1] == ds[..n] + [ds[n]];
      positions, groups := positions', groups';
    }
    assert ds[..|ds|] == ds;
  }

  /** One turn of the loop: the group of `d` is found or opened, and `d` appended to it. */
  method FileDelivery(ghost ds: seq<Delivery>, positions: map<SetKey, nat>, groups: seq<Group>, d: Delivery)
    returns (positions': map<SetKey, nat>, groups': seq<Group>)
    requires PositionsOk(positions, groups) && IsGrouping(ds, groups)
    ensures PositionsOk(positions', groups') && IsGrouping(ds + [d], groups')
  {
    if SetOf(d) in positions {
      var at := positions[SetOf(d)];
      positions' := positions;
      groups' := groups[at := groups[at].(questions := groups[at].questions + [d])];
      GroupingGrows(ds, groups, d, at, groups');
    } else {
      positions' := positions[SetOf(d) := |groups|];
      groups' := groups + [Group(SetOf(d), d.askedAtMs, [d])];
      GroupingGrows(ds, groups, d, |groups|, groups');
    }
  }

  /** Each group holds exactly its own deliveries. */
  ghost predicate Holds(ds: seq<Delivery>, g: Group) {
    g.questions == WithKey(ds, g.key) && g.questions != [] && g.askedAtMs == g.questions[0].askedAtMs
  }

  lemma WithOneMore(ds: seq<Delivery>, d: Delivery, key: SetKey)
    ensures WithKey(ds + [d], key) == if SetOf(d) == key then WithKey(ds, key) + [d] else WithKey(ds, key)
  {
    assert (ds + [d])[..|ds|] == ds;
  }

  lemma GroupsGrow(gs: seq<Group>, key: SetKey, g: Group, at: nat, gs': seq<Group>, k: SetKey)
    requires at <= |gs| && g.key == key
    requires at < |gs| ==> gs[at].key == key && gs' == gs[at := g]
    requires at == |gs| ==> gs' == gs + [g]
    ensures HasGroup(gs', k) <==> HasGroup(gs, k) || k == key
  {
    assert gs'[at].key == key;
    if HasGroup(gs, k) {
      var j :| 0 <= j < |gs| && gs[j].key == k;
      assert gs'[j].key == k;
    }
    if HasGroup(gs', k) && k != key {
      var j :| 0 <= j < |gs'| && gs'[j].key == k;
      assert gs[j].key == k;
    }
  }

  /** Filing one more delivery under its tool call, opening the group when it is the first. */
  lemma GroupingGrows(ds: seq<Delivery>, gs: seq<Group>, d: Delivery, at: nat, gs': seq<Group>)
    requires IsGrouping(ds, gs) && at <= |gs|
    requires at < |gs| ==> gs[at].key == SetOf(d) && gs' == gs[at := gs[at].(questions := gs[at].questions + [d])]
    requires at == |gs| ==> !HasGroup(gs, SetOf(d)) && gs' == gs + [Group(SetOf(d), d.askedAtMs, [d])]
    ensures IsGrouping(ds + [d], gs')
  {
    if at == |gs| { NoneWithKey(ds, SetOf(d)); }
    forall i | 0 <= i < |gs'| ensures Holds(ds + [d], gs'[i]) {
      WithOneMore(ds, d, gs'[i].key);
      if i != at { assert gs'[i] == gs[i] && gs[i].key != SetOf(d); }
    }
    forall x | x in ds + [d] ensures HasGroup(gs', SetOf(x)) {
      GroupsGrow(gs, SetOf(d), gs'[at], at, gs', SetOf(x));
    }
  }

  lemma {:induction false} NoneWithKey(ds: seq<Delivery>, key: SetKey)
    requires forall i :: 0 <= i < |ds| ==> SetOf(ds[i]) != key
    ensures WithKey(ds, key) == []
  {
    if ds != [] { NoneWithKey(ds[..|ds| - 1], key); }
  }

  lemma {:induction false} WithKeyHolds(ds: seq<Delivery>, key: SetKey, d: Delivery)
    ensures d in WithKey(ds, key) <==> d in ds && d.chatId == key.0 && d.toolCallId == key.1
  {
    if ds != [] {
      WithKeyHolds(ds[..|ds| - 1], key, d);
      assert ds == ds[..|ds| - 1] + [ds[|ds| - 1]];
    }
  }

  /** Deliveries come in one group exactly when they are for the same tool call of the same chat. */
  lemma GroupedByToolCall(ds: seq<Delivery>, gs: seq<Group>, i: nat, d: Delivery, e: Delivery)
    requires IsGrouping(ds, gs) && i < |gs| && d in gs[i].questions
    ensures d in ds && (e in gs[i].questions <==> e in ds && e.chatId == d.chatId && e.toolCallId == d.toolCallId)
  {
    assert Holds(ds, gs[i]);
    WithKeyHolds(ds, gs[i].key, d);
    WithKeyHolds(ds, gs[i].key, e);
  }

  // ----- apply_timeout_defaults -----

  datatype PendingQuestion = PendingQuestion(id: string, questionType: string)

  datatype PendingSet = PendingSet(toolCallId: string, askedAtMs: nat, pending: bool, questions: seq<PendingQuestion>)

  datatype Value = Flag(b: bool) | Text(s: string) | Choice(one: string)

  /** `to_ascii_lowercase` */
  function Lower(s: string): string {
    if s == "" then "" else [if 'A' <= s[0] <= 'Z' then (s[0] as int + 32) as char else s[0]] + Lower(s[1..])
  }

  /** The stored default as the answer to one question, or nothing for a yes/no it does not decide. */
  function ValueFor(questionType: string, default_: string): Option<Value> {
    if questionType == "yes_no" then
      var answer := Lower(TrimBy(IsSpace, default_));
      if answer == "yes" || answer == "true" then Some(Flag(true))
      else if answer == "no" || answer == "false" then Some(Flag(false))
      else None
    else if questionType == "multi_select" then Some(Choice(default_))
    else Some(Text(default_))
  }

  /** Letter for letter the lower-case word, in whatever case. */
  predicate Spells(s: string, word: string) {
    |s| == |word| && forall i :: 0 <= i < |s| ==> s[i] == word[i] || s[i] as int + 32 == word[i] as int
  }

  lemma {:induction false} LowerIs(s: string, word: string)
    requires forall i :: 0 <= i < |word| ==> 'a' <= word[i] <= 'z'
    ensures Lower(s) == word <==> Spells(s, word)
  {
    if s != "" && word != "" {
      LowerIs(s[1..], word[1..]);
      assert word == [word[0]] + word[1..];
      assert Spells(s, word) <==> Spells(s[..1], word[..1]) && Spells(s[1..], word[1..]) by {
        assert forall i :: 1 <= i < |s| ==> s[i] == s[1..][i - 1];
        assert forall i :: 1 <= i < |word| ==> word[i] == word[1..][i - 1];
      }
    }
  }

  /** White space around it aside, the default says the word. */
  ghost predicate Says(default_: string, word: string) {
    exists i: nat, j: nat :: Bounds(IsSpace, default_, i, j) && Spells(default_[i..j], word)
  }

  lemma SaysIs(default_: string, word: string)
    requires forall i :: 0 <= i < |word| ==> 'a' <= word[i] <= 'z'
    ensures Lower(TrimBy(IsSpace, default_)) == word <==> Says(default_, word)
  {
    var i, j := TrimByHasBounds(IsSpace, default_);
    TrimByIs(IsSpace, default_, i, j);
    LowerIs(default_[i..j], word);
    if Says(default_, word) {
      var k: nat, l: nat :| Bounds(IsSpace, default_, k, l) && Spells(default_[k..l], word);
      TrimByIs(IsSpace, default_, k, l);
    }
  }

  /** What a default means: `yes` and `true` are true, `no` and `false` are false, other types take it as it is. */
  lemma DefaultMeans(questionType: string, default_: string)
    ensures questionType == "yes_no" ==>
              var value := ValueFor(questionType, default_);
              && (value == Some(Flag(true)) <==> Says(default_, "yes") || Says(default_, "true"))
              && (value == Some(Flag(false)) <==> Says(default_, "no") || Says(default_, "false"))
              && (value.Some? ==> value.value.Flag?)
    ensures questionType != "yes_no" ==>
              ValueFor(questionType, default_)
              == Some(if questionType == "multi_select" then Choice(default_) else Text(default_))
  {
    SaysIs(default_, "yes");
    SaysIs(default_, "true");
    SaysIs(default_, "no");
    SaysIs(default_, "false");
  }

  predicate Covers(set_: PendingSet, ds: seq<Delivery>) {
    && set_.pending
    && (forall i :: 0 <= i < |ds| ==> ds[i].askedAtMs == set_.askedAtMs)
    && (forall i :: 0 <= i < |ds| ==> exists q :: q in set_.questions && q.id == ds[i].questionId)
    && |ds| == |set_.questions|
  }

  predicate IsDelivered(ds: seq<Delivery>, id: string) {
    exists i :: 0 <= i < |ds| && ds[i].questionId == id
  }

  predicate Answers(q: PendingQuestion, ds: seq<Delivery>, answer: string, a: (string, Value)) {
    a.0 == q.id && ValueFor(q.questionType, answer) == Some(a.1) && IsDelivered(ds, q.id)
  }

  predicate Unanswerable(q: PendingQuestion, ds: seq<Delivery>, answer: string) {
    !IsDelivered(ds, q.id) || ValueFor(q.questionType, answer).None?
  }

  /**
   All of a pending set is answered from the default or none of it: every question in order, each
   with a value of its own type; `answer` is the default as it was asked for.
   */
  method TimeoutAnswers(set_: PendingSet, ds: seq<Delivery>, answer: string)
    returns (r: Option<seq<(string, Value)>>)
    ensures r.Some? ==>
              && Covers(set_, ds) && |r.value| == |set_.questions|
              && (forall i :: 0 <= i < |r.value| ==> Answers(set_.questions[i], ds, answer, r.value[i]))
    ensures r.None? ==>
              || !Covers(set_, ds)
              || (exists i :: 0 <= i < |set_.questions| && Unanswerable(set_.questions[i], ds, answer))
  {
    if !Covers(set_, ds) { return None; }
    var answers: seq<(string, Value)> := [];
    var i := 0;
    while i < |set_.questions|
      invariant 0 <= i <= |set_.questions| && |answers| == i
      invariant forall k :: 0 <= k < i ==> Answers(set_.questions[k], ds, answer, answers[k])
    {
      var q := set_.questions[i];
      var value := ValueFor(q.questionType, answer);
      if value.None? || !IsDelivered(ds, q.id) {
        assert Unanswerable(set_.questions[i], ds, answer);
        return None;
      }
      answers := answers + [(q.id, value.value)];
      i := i + 1;
    }
    return Some(answers);
  }
}
