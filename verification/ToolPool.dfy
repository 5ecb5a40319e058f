/**
 The turn tool pool: queues of leased-out tool instances, refilled by a single-flight expansion.
 `take_turn_tool` is modelled as a program counter per task; the steps of any number of tasks
 interleave freely, and a task may be cancelled at any point where it awaits.
 */
module ToolPool {
  import opened Outcome
  import opened Ordering

  type ToolKey = string
  type TaskId = nat

  /** One mutable tool instance; the key comes from its description. */
  datatype Tool = Tool(serial: nat, key: ToolKey)

  type Queues = map<ToolKey, seq<Tool>>

  // ----- the queues -----

  function Slots(q: Queues, key: ToolKey): seq<Tool> {
    if key in q then q[key] else []
  }

  /** `return_tool`: to the back of the queue of its own key. */
  function Put(q: Queues, tool: Tool): Queues {
    q[tool.key := Slots(q, tool.key) + [tool]]
  }

  /** `add_missing_tools` and `from_tools`. */
  function PutAll(q: Queues, tools: seq<Tool>): Queues
    decreases |tools|
  {
    if tools == [] then q else PutAll(Put(q, tools[0]), tools[1..])
  }

  /** The queues after `take` popped the front of a nonempty queue. */
  function Pop(q: Queues, key: ToolKey): Queues
    requires Slots(q, key) != []
  {
    q[key := q[key][1..]]
  }

  class TurnToolPool {
    var tools: Queues

    constructor FromTools(ts: seq<Tool>)
      ensures tools == PutAll(map[], ts)
    {
      tools := map[];
      new;
      AddMissingTools(ts);
    }

    method Take(key: ToolKey) returns (r: Option<Tool>)
      modifies this
      ensures r.None? <==> Slots(old(tools), key) == []
      ensures r.None? ==> tools == old(tools)
      ensures r.Some? ==> r.value == Slots(old(tools), key)[0] && tools == Pop(old(tools), key)
    {
      if key !in tools || tools[key] == [] { return None; }
      r := Some(tools[key][0]);
      tools := tools[key := tools[key][1..]];
    }

    method ReturnTool(tool: Tool)
      modifies this
      ensures tools == Put(old(tools), tool)
    {
      if tool.key !in tools { tools := tools[tool.key := []]; }
      tools := tools[tool.key := tools[tool.key] + [tool]];
    }

    method AddMissingTools(ts: seq<Tool>)
      modifies this
      ensures tools == PutAll(old(tools), ts)
    {
      var i := 0;
      assert ts[0..] == ts;
      while i < |ts|
        invariant 0 <= i <= |ts|
        invariant PutAll(tools, ts[i..]) == PutAll(old(tools), ts)
      {
        assert ts[i..][1..] == ts[i + 1..];
        ReturnTool(ts[i]);
        i := i + 1;
      }
    }

    /** The fewest full vectors after which no requested slot is missing. */
    method VectorBuildsNeeded(slots: seq<(ToolKey, nat)>) returns (needed: nat)
      ensures forall i :: 0 <= i < |slots| ==> slots[i].1 <= |Slots(tools, slots[i].0)| + needed
      ensures needed > 0 ==> exists i :: 0 <= i < |slots| && slots[i].1 == |Slots(tools, slots[i].0)| + needed
    {
      needed := 0;
      for n := 0 to |slots|
        invariant forall i :: 0 <= i < n ==> slots[i].1 <= |Slots(tools, slots[i].0)| + needed
        invariant needed > 0 ==> exists i :: 0 <= i < n && slots[i].1 == |Slots(tools, slots[i].0)| + needed
      {
        var existing := if slots[n].0 in tools then |tools[slots[n].0]| else 0;
        var missing := if slots[n].1 > existing then slots[n].1 - existing else 0;
        if missing > needed { needed := missing; }
      }
    }
  }

  predicate HasKey(tools: seq<Tool>, key: ToolKey) {
    exists i :: 0 <= i < |tools| && tools[i].key == key
  }

  /** Adding a vector grows the queue of every key it holds an instance of. */
  lemma {:induction false} PutAllGrows(q: Queues, tools: seq<Tool>, key: ToolKey)
    ensures |Slots(PutAll(q, tools), key)| >= |Slots(q, key)|
    ensures HasKey(tools, key) ==> |Slots(PutAll(q, tools), key)| >= |Slots(q, key)| + 1
    decreases |tools|
  {
    if tools != [] {
      PutAllGrows(Put(q, tools[0]), tools[1..], key);
      if i :| 0 <= i < |tools| && tools[i].key == key {
        if i > 0 { assert tools[1..][i - 1].key == key; }
      }
    }
  }

  /** The instances of one key, in the order they came. */
  function OfKey(tools: seq<Tool>, key: ToolKey): seq<Tool> {
    if tools == [] then [] else (if tools[0].key == key then [tools[0]] else []) + OfKey(tools[1..], key)
  }

  /** First in, first out: what is added queues up behind what is there, in its own order. */
  lemma {:induction false} PutAllInOrder(q: Queues, tools: seq<Tool>, key: ToolKey)
    ensures Slots(PutAll(q, tools), key) == Slots(q, key) + OfKey(tools, key)
    decreases |tools|
  {
    if tools != [] { PutAllInOrder(Put(q, tools[0]), tools[1..], key); }
  }

  /** The queues after `prepare_turn_tool_pool` added its vectors one by one. */
  function AddVectors(q: Queues, vectors: seq<seq<Tool>>): Queues
    decreases |vectors|
  {
    if vectors == [] then q else AddVectors(PutAll(q, vectors[0]), vectors[1..])
  }

  /** A vector holds one instance of every tool, so the largest deficit many vectors fill every slot. */
  lemma {:induction false} VectorsFillSlots(q: Queues, vectors: seq<seq<Tool>>, key: ToolKey)
    requires forall n :: 0 <= n < |vectors| ==> HasKey(vectors[n], key)
    ensures |Slots(AddVectors(q, vectors), key)| >= |Slots(q, key)| + |vectors|
    decreases |vectors|
  {
    if vectors != [] {
      PutAllGrows(q, vectors[0], key);
      VectorsFillSlots(PutAll(q, vectors[0]), vectors[1..], key);
    }
  }

  // ----- the protocol -----

  datatype Pc =
    | FirstTake(key: ToolKey)
    | Compete(key: ToolKey)                     // at the compare-exchange
    | Building(key: ToolKey)                    // won it: constructing the fallback vector
    | Adding(key: ToolKey, made: seq<Tool>)    // about to add the vector
    | FreshTake(key: ToolKey)                   // about to take from it
    | Releasing(result: Option<Tool>)           // guard dropped: about to clear the flag
    | Notifying(result: Option<Tool>)           // flag cleared: about to notify the waiters
    | Subscribed(key: ToolKey, epoch: nat)      // lost it: created the notification future
    | Waiting(key: ToolKey, epoch: nat)         // saw the flag still set: awaiting
    | Retake(key: ToolKey)
    | Leased(tool: Tool)
    | Finished

  /** `epoch` counts calls of `notify_waiters`; a future created at epoch e is woken by any later call. */
  datatype State = State(
    queues: Queues, flag: bool, epoch: nat, tasks: map<TaskId, Pc>, built: set<Tool>, dropped: set<Tool>)

  datatype Step =
    | Spawn(t: TaskId, key: ToolKey)
    | Run(t: TaskId)
    | Built(t: TaskId, made: seq<Tool>)
    | Cancel(t: TaskId)
    | GiveBack(t: TaskId)
    | Prepare(made: seq<Tool>)

  function AfterTake(s: State, t: TaskId, key: ToolKey, miss: Pc): State {
    if Slots(s.queues, key) == [] then s.(tasks := s.tasks[t := miss])
    else s.(queues := Pop(s.queues, key), tasks := s.tasks[t := Leased(Slots(s.queues, key)[0])])
  }

  /** One atomic action of task `t`, where it has one without outside input. */
  function Act(s: State, t: TaskId): State
    requires t in s.tasks
  {
    match s.tasks[t]
    case FirstTake(key) => AfterTake(s, t, key, Compete(key))
    case Compete(key) =>
      if s.flag then s.(tasks := s.tasks[t := Subscribed(key, s.epoch)])
      else s.(flag := true, tasks := s.tasks[t := Building(key)])
    case Building(_) => s
    case Adding(key, made) => s.(queues := PutAll(s.queues, made), tasks := s.tasks[t := FreshTake(key)])
    case FreshTake(key) =>
      if Slots(s.queues, key) == [] then s.(tasks := s.tasks[t := Releasing(None)])
      else s.(queues := Pop(s.queues, key), tasks := s.tasks[t := Releasing(Some(Slots(s.queues, key)[0]))])
    case Releasing(result) => s.(flag := false, tasks := s.tasks[t := Notifying(result)])
    case Notifying(result) =>
      s.(epoch := s.epoch + 1, tasks := s.tasks[t := if result.Some? then Leased(result.value) else Finished])
    case Subscribed(key, e) => s.(tasks := s.tasks[t := if s.flag then Waiting(key, e) else Retake(key)])
    case Waiting(key, e) => if e < s.epoch then s.(tasks := s.tasks[t := Retake(key)]) else s
    case Retake(key) => AfterTake(s, t, key, Compete(key))
    case Leased(_) => s
    case Finished => s
  }

  predicate Fresh(s: State, tools: seq<Tool>) {
    (forall i, j :: 0 <= i < j < |tools| ==> tools[i] != tools[j])
        && forall i :: 0 <= i < |tools| ==> tools[i] !in s.built
  }

  function ToSet(tools: seq<Tool>): set<Tool> {
    set x | x in tools
  }

  ghost predicate Next(s: State, step: Step, s': State) {
    match step
    case Spawn(t, key) =>
      (t in s.tasks ==> s.tasks[t].Finished?) && s' == s.(tasks := s.tasks[t := FirstTake(key)])
    case Run(t) => t in s.tasks && s' == Act(s, t)
    case Built(t, made) =>
      t in s.tasks && s.tasks[t].Building? && Fresh(s, made)
      && s' == s.(built := s.built + ToSet(made), tasks := s.tasks[t := Adding(s.tasks[t].key, made)])
    case Cancel(t) =>
      // the future, or the lease, is dropped: the guard's drop still runs, what it owned is destroyed
      t in s.tasks
      && (match s.tasks[t]
          case FirstTake(_) => s' == s.(tasks := s.tasks[t := Finished])
          case Building(_) => s' == s.(tasks := s.tasks[t := Releasing(None)])
          case Adding(_, made) =>
            s' == s.(dropped := s.dropped + ToSet(made), tasks := s.tasks[t := Releasing(None)])
          case FreshTake(_) => s' == s.(tasks := s.tasks[t := Releasing(None)])
          case Waiting(_, _) => s' == s.(tasks := s.tasks[t := Finished])
          case Retake(_) => s' == s.(tasks := s.tasks[t := Finished])
          case Leased(tool) => s' == s.(dropped := s.dropped + {tool}, tasks := s.tasks[t := Finished])
          case _ => false)
    case GiveBack(t) =>
      t in s.tasks && s.tasks[t].Leased?
      && s' == s.(queues := Put(s.queues, s.tasks[t].tool), tasks := s.tasks[t := Finished])
    case Prepare(made) =>
      Fresh(s, made) && s' == s.(built := s.built + ToSet(made), queues := PutAll(s.queues, made))
  }

  ghost predicate Init(s: State) {
    exists ts :: Fresh(State(map[], false, 0, map[], {}, {}), ts)
                 && s == State(PutAll(map[], ts), false, 0, map[], ToSet(ts), {})
  }

  ghost predicate IsRun(states: seq<State>, steps: seq<Step>) {
    && |states| == |steps| + 1 && Init(states[0])
    && forall i :: 0 <= i < |steps| ==> StepAt(states, steps, i)
  }

  ghost predicate StepAt(states: seq<State>, steps: seq<Step>, i: nat)
    requires |states| == |steps| + 1 && i < |steps|
  {
    Next(states[i], steps[i], states[i + 1])
  }

  // ----- the expansion flag and the wake-ups -----

  predicate Expanding(pc: Pc) {
    pc.Building? || pc.Adding? || pc.FreshTake? || pc.Releasing?
  }

  predicate MustNotify(pc: Pc) {
    Expanding(pc) || pc.Notifying?
  }

  ghost predicate SingleFlight(s: State) {
    && (forall t, u :: t in s.tasks && u in s.tasks && Expanding(s.tasks[t]) && Expanding(s.tasks[u]) ==> t == u)
    && (s.flag <==> exists t :: t in s.tasks && Expanding(s.tasks[t]))
  }

  ghost predicate NotifierExists(s: State) {
    exists u :: u in s.tasks && MustNotify(s.tasks[u])
  }

  /** A waiter that no notification has reached yet has one coming. */
  ghost predicate NoLostWakeup(s: State) {
    forall t :: t in s.tasks ==>
      && (s.tasks[t].Subscribed? ==> s.tasks[t].epoch <= s.epoch)
      && (s.tasks[t].Waiting? ==> s.tasks[t].epoch <= s.epoch
                                  && (s.tasks[t].epoch == s.epoch ==> NotifierExists(s)))
  }

  /** Replacing one program counter by another with the same claim on the flag and no new wait. */
  lemma ReplaceKeepsFlight(s: State, s': State, t: TaskId, pc: Pc)
    requires SingleFlight(s) && NoLostWakeup(s)
    requires s'.tasks == s.tasks[t := pc] && s'.flag == s.flag && s'.epoch == s.epoch
    requires !pc.Waiting? && !pc.Subscribed?
    requires Expanding(pc) <==> t in s.tasks && Expanding(s.tasks[t])
    requires t in s.tasks ==> !s.tasks[t].Notifying?
    ensures SingleFlight(s') && NoLostWakeup(s')
  {
    assert forall u :: u in s'.tasks && u != t ==> u in s.tasks && s'.tasks[u] == s.tasks[u];
    if s.flag {
      var u :| u in s.tasks && Expanding(s.tasks[u]);
      assert Expanding(s'.tasks[u]);
    }
    if NotifierExists(s) {
      var u :| u in s.tasks && MustNotify(s.tasks[u]);
      assert u in s'.tasks && MustNotify(s'.tasks[u]);
    }
  }

  lemma WinKeepsFlight(s: State, t: TaskId)
    requires SingleFlight(s) && NoLostWakeup(s) && t in s.tasks && s.tasks[t].Compete? && !s.flag
    ensures SingleFlight(Act(s, t)) && NoLostWakeup(Act(s, t))
  {
    var s' := Act(s, t);
    assert Expanding(s'.tasks[t]) && NotifierExists(s');
  }

  lemma SubscribeKeepsFlight(s: State, t: TaskId)
    requires SingleFlight(s) && NoLostWakeup(s) && t in s.tasks && s.tasks[t].Compete? && s.flag
    ensures SingleFlight(Act(s, t)) && NoLostWakeup(Act(s, t))
  {
    var s' := Act(s, t);
    var u :| u in s.tasks && Expanding(s.tasks[u]);
    assert u in s'.tasks && Expanding(s'.tasks[u]) && MustNotify(s'.tasks[u]);
  }

  /** The check after subscribing is what closes the gap between the two flag reads. */
  lemma WaitKeepsFlight(s: State, t: TaskId)
    requires SingleFlight(s) && NoLostWakeup(s) && t in s.tasks && s.tasks[t].Subscribed? && s.flag
    ensures SingleFlight(Act(s, t)) && NoLostWakeup(Act(s, t))
  {
    var s' := Act(s, t);
    var u :| u in s.tasks && Expanding(s.tasks[u]);
    assert u in s'.tasks && Expanding(s'.tasks[u]) && MustNotify(s'.tasks[u]);
  }

  lemma ReleaseKeepsFlight(s: State, t: TaskId)
    requires SingleFlight(s) && NoLostWakeup(s) && t in s.tasks && s.tasks[t].Releasing?
    ensures SingleFlight(Act(s, t)) && NoLostWakeup(Act(s, t))
  {
    var s' := Act(s, t);
    assert t in s'.tasks && MustNotify(s'.tasks[t]);
    assert forall u :: u in s'.tasks && u != t ==> s'.tasks[u] == s.tasks[u];
  }

  lemma NotifyKeepsFlight(s: State, t: TaskId)
    requires SingleFlight(s) && NoLostWakeup(s) && t in s.tasks && s.tasks[t].Notifying?
    ensures SingleFlight(Act(s, t)) && NoLostWakeup(Act(s, t))
  {
    var s' := Act(s, t);
    if s.flag {
      var u :| u in s.tasks && Expanding(s.tasks[u]);
      assert u in s'.tasks && Expanding(s'.tasks[u]);
    }
  }

  lemma RunKeepsFlight(s: State, t: TaskId)
    requires SingleFlight(s) && NoLostWakeup(s) && t in s.tasks
    ensures SingleFlight(Act(s, t)) && NoLostWakeup(Act(s, t))
  {
    match s.tasks[t]
    case Compete(_) => if s.flag { SubscribeKeepsFlight(s, t); } else { WinKeepsFlight(s, t); }
    case Subscribed(key, _) =>
      if s.flag { WaitKeepsFlight(s, t); } else { ReplaceKeepsFlight(s, Act(s, t), t, Retake(key)); }
    case Waiting(key, e) => if e < s.epoch { ReplaceKeepsFlight(s, Act(s, t), t, Retake(key)); }
    case Releasing(_) => ReleaseKeepsFlight(s, t);
    case Notifying(_) => NotifyKeepsFlight(s, t);
    case Building(_) =>
    case Leased(_) =>
    case Finished =>
    case _ => ReplaceKeepsFlight(s, Act(s, t), t, Act(s, t).tasks[t]);
  }

  lemma StepKeepsFlight(s: State, step: Step, s': State)
    requires SingleFlight(s) && NoLostWakeup(s) && Next(s, step, s')
    ensures SingleFlight(s') && NoLostWakeup(s')
  {
    match step
    case Spawn(t, key) => ReplaceKeepsFlight(s, s', t, FirstTake(key));
    case Run(t) => RunKeepsFlight(s, t);
    case Built(t, made) => ReplaceKeepsFlight(s, s', t, s'.tasks[t]);
    case Cancel(t) => ReplaceKeepsFlight(s, s', t, s'.tasks[t]);
    case GiveBack(t) => ReplaceKeepsFlight(s, s', t, Finished);
    case Prepare(_) =>
      if NotifierExists(s) {
        var u :| u in s.tasks && MustNotify(s.tasks[u]);
        assert u in s'.tasks;
      }
  }

  // ----- who has each instance -----

  function Carried(pc: Pc): seq<Tool> {
    match pc
    case Adding(_, made) => made
    case Releasing(result) => if result.Some? then [result.value] else []
    case Notifying(result) => if result.Some? then [result.value] else []
    case Leased(tool) => [tool]
    case _ => []
  }

  ghost predicate Queued(s: State, x: Tool) {
    x in Slots(s.queues, x.key)
  }

  ghost predicate CarriedBy(s: State, x: Tool, t: TaskId) {
    t in s.tasks && x in Carried(s.tasks[t])
  }

  ghost predicate HeldBySome(s: State, x: Tool) {
    exists t :: CarriedBy(s, x, t)
  }

  /** Queue slots and hands hold distinct instances, filed under the right key. */
  ghost predicate NoSharing(s: State) {
    && (forall k :: k in s.queues ==>
          NoDup(s.queues[k]) && forall i :: 0 <= i < |s.queues[k]| ==> s.queues[k][i].key == k)
    && (forall t :: t in s.tasks ==> NoDup(Carried(s.tasks[t])))
    && (forall x, t, u :: CarriedBy(s, x, t) && CarriedBy(s, x, u) ==> t == u)
    && (forall x, t :: CarriedBy(s, x, t) ==> !Queued(s, x))
  }

  /** Nothing built is lost: it is queued, in exactly one hand, or was destroyed with a cancelled future. */
  ghost predicate Accounted(s: State) {
    && (forall x :: Queued(s, x) ==> x in s.built && x !in s.dropped)
    && (forall x, t :: CarriedBy(s, x, t) ==> x in s.built && x !in s.dropped)
    && s.dropped <= s.built
    && (forall x :: x in s.built && x !in s.dropped && !Queued(s, x) ==> HeldBySome(s, x))
  }

  ghost predicate Conserved(s: State) {
    NoSharing(s) && Accounted(s)
  }

  lemma {:induction false} PutAllContents(q: Queues, tools: seq<Tool>, key: ToolKey)
    requires forall k :: k in q ==> NoDup(q[k]) && forall i :: 0 <= i < |q[k]| ==> q[k][i].key == k
    requires NoDup(tools) && forall x :: x in tools ==> x !in Slots(q, x.key)
    ensures var q' := PutAll(q, tools);
            && (forall x :: x in Slots(q', key) <==> x in Slots(q, key) || (x in tools && x.key == key))
            && NoDup(Slots(q', key)) && forall i :: 0 <= i < |Slots(q', key)| ==> Slots(q', key)[i].key == key
    decreases |tools|
  {
    if tools != [] {
      var q1, rest := Put(q, tools[0]), tools[1..];
      assert tools == [tools[0]] + rest;
      assert NoDup(Slots(q1, tools[0].key));
      forall x | x in rest ensures x !in Slots(q1, x.key) { assert x != tools[0]; }
      PutAllContents(q1, rest, key);
    }
  }

  /** Moving instances between the queues and the hands of task `t`, possibly with new or destroyed ones. */
  lemma MoveKeepsConserved(s: State, s': State, t: TaskId, pc: Pc)
    requires Conserved(s) && s'.tasks == s.tasks[t := pc]
    requires forall k :: k in s'.queues ==>
               NoDup(s'.queues[k]) && forall i :: 0 <= i < |s'.queues[k]| ==> s'.queues[k][i].key == k
    requires NoDup(Carried(pc))
    requires s.built <= s'.built && s.dropped <= s'.dropped <= s'.built
    requires forall x :: x in s'.built - s.built ==> Queued(s', x) || x in Carried(pc)
    requires forall x :: Queued(s', x) ==> x !in Carried(pc) && x in s'.built && x !in s'.dropped
                                           && (Queued(s, x) || CarriedBy(s, x, t) || x !in s.built)
    requires forall x :: x in Carried(pc) ==> x in s'.built && x !in s'.dropped
                                              && (Queued(s, x) || CarriedBy(s, x, t) || x !in s.built)
    requires forall x :: Queued(s, x) || CarriedBy(s, x, t) ==> Queued(s', x) || x in Carried(pc) || x in s'.dropped
    requires forall x :: x in s'.dropped - s.dropped ==> CarriedBy(s, x, t)
    ensures Conserved(s')
  {
    forall x, u | CarriedBy(s', x, u)
      ensures (u == t && x in Carried(pc))
              || (u != t && CarriedBy(s, x, u) && x !in Carried(pc) && !Queued(s', x) && x !in s'.dropped)
    {
      if u != t {
        assert CarriedBy(s, x, u) && x in s.built;
        assert !CarriedBy(s, x, t);
      }
    }
    assert NoSharing(s');
    forall x | x in s'.built && x !in s'.dropped && !Queued(s', x) ensures HeldBySome(s', x) {
      if x in Carried(pc) {
        assert CarriedBy(s', x, t);
      } else {
        assert x in s.built && !Queued(s, x) && HeldBySome(s, x);
        var u :| CarriedBy(s, x, u);
        assert CarriedBy(s', x, u);
      }
    }
  }

  lemma TakeKeepsConserved(s: State, t: TaskId, key: ToolKey, pc: Pc)
    requires Conserved(s) && Slots(s.queues, key) != [] && (t in s.tasks ==> Carried(s.tasks[t]) == [])
    requires Carried(pc) == [Slots(s.queues, key)[0]]
    ensures Conserved(s.(queues := Pop(s.queues, key), tasks := s.tasks[t := pc]))
  {
    var s' := s.(queues := Pop(s.queues, key), tasks := s.tasks[t := pc]);
    var x0 := s.queues[key][0];
    assert x0.key == key && NoDup(s.queues[key]);
    assert s.queues[key] == [x0] + s.queues[key][1..];
    assert Queued(s, x0);
    forall x ensures Queued(s', x) <==> Queued(s, x) && x != x0 {
    }
    MoveKeepsConserved(s, s', t, pc);
  }

  lemma PutKeepsConserved(s: State, s': State, t: TaskId, pc: Pc, tools: seq<Tool>)
    requires Conserved(s) && s'.tasks == s.tasks[t := pc] && s'.queues == PutAll(s.queues, tools)
    requires s'.built == s.built && s'.dropped == s.dropped && Carried(pc) == []
    requires t in s.tasks && tools == Carried(s.tasks[t])
    ensures Conserved(s')
  {
    forall x | x in tools ensures x !in Slots(s.queues, x.key) { assert CarriedBy(s, x, t); }
    forall k ensures (forall x :: x in Slots(s'.queues, k) <==> x in Slots(s.queues, k) || (x in tools && x.key == k))
                     && NoDup(Slots(s'.queues, k))
                        && forall i :: 0 <= i < |Slots(s'.queues, k)| ==> Slots(s'.queues, k)[i].key == k
    {
      PutAllContents(s.queues, tools, k);
    }
    forall x ensures Queued(s', x) <==> Queued(s, x) || CarriedBy(s, x, t) {
      assert x in Slots(s'.queues, x.key) <==> x in Slots(s.queues, x.key) || x in tools;
    }
    forall k | k in s'.queues
      ensures NoDup(s'.queues[k]) && forall i :: 0 <= i < |s'.queues[k]| ==> s'.queues[k][i].key == k
    {
      assert Slots(s'.queues, k) == s'.queues[k];
    }
    MoveKeepsConserved(s, s', t, pc);
  }

  /** The hands of `t` stay as they are, or lose what is destroyed with them, or gain what was just built. */
  lemma HandsKeepConserved(s: State, s': State, t: TaskId, pc: Pc)
    requires Conserved(s) && s'.tasks == s.tasks[t := pc] && s'.queues == s.queues
    requires var held := if t in s.tasks then Carried(s.tasks[t]) else [];
             || (s'.built == s.built && s'.dropped == s.dropped && Carried(pc) == held)
             || (s'.built == s.built && s'.dropped == s.dropped + ToSet(held) && Carried(pc) == [])
             || (held == [] && Fresh(s, Carried(pc)) && s'.built == s.built + ToSet(Carried(pc))
                && s'.dropped == s.dropped)
    ensures Conserved(s')
  {
    assert t in s.tasks ==> NoDup(Carried(s.tasks[t]));
    assert t in s.tasks ==> forall x :: x in Carried(s.tasks[t]) ==> CarriedBy(s, x, t);
    forall x ensures Queued(s', x) <==> Queued(s, x) {
    }
    MoveKeepsConserved(s, s', t, pc);
  }

  lemma PrepareKeepsConserved(s: State, s': State, made: seq<Tool>)
    requires Conserved(s) && Next(s, Prepare(made), s')
    ensures Conserved(s')
  {
    forall k ensures (forall x :: x in Slots(s'.queues, k) <==> x in Slots(s.queues, k) || (x in made && x.key == k))
                     && NoDup(Slots(s'.queues, k))
                        && forall i :: 0 <= i < |Slots(s'.queues, k)| ==> Slots(s'.queues, k)[i].key == k
    {
      assert forall x :: x in made && Queued(s, x) ==> x in s.built;
      PutAllContents(s.queues, made, k);
    }
    forall x ensures Queued(s', x) <==> Queued(s, x) || x in made {
      assert x in Slots(s'.queues, x.key) <==> x in Slots(s.queues, x.key) || x in made;
    }
    forall k | k in s'.queues
      ensures NoDup(s'.queues[k]) && forall i :: 0 <= i < |s'.queues[k]| ==> s'.queues[k][i].key == k
    {
      assert Slots(s'.queues, k) == s'.queues[k];
    }
    forall x, t ensures CarriedBy(s', x, t) <==> CarriedBy(s, x, t) {
    }
    forall x | x in s'.built && x !in s'.dropped && !Queued(s', x) ensures HeldBySome(s', x) {
      var t :| CarriedBy(s, x, t);
      assert CarriedBy(s', x, t);
    }
  }

  /** A take that hits moves one instance into the task's hands, a take that misses moves none. */
  lemma TakeOrMissKeepsConserved(s: State, t: TaskId, key: ToolKey, pc: Pc, s': State)
    requires Conserved(s) && t in s.tasks && Carried(s.tasks[t]) == []
    requires Slots(s.queues, key) == [] ==> s' == s.(tasks := s.tasks[t := pc]) && Carried(pc) == []
    requires Slots(s.queues, key) != [] ==>
               s' == s.(queues := Pop(s.queues, key), tasks := s.tasks[t := pc])
                   && Carried(pc) == [Slots(s.queues, key)[0]]
    ensures Conserved(s')
  {
    if Slots(s.queues, key) != [] { TakeKeepsConserved(s, t, key, pc); } else { HandsKeepConserved(s, s', t, pc); }
  }

  lemma TakesKeepConserved(s: State, t: TaskId)
    requires Conserved(s) && t in s.tasks && (s.tasks[t].FirstTake? || s.tasks[t].Retake? || s.tasks[t].FreshTake?)
    ensures Conserved(Act(s, t))
  {
    var key := s.tasks[t].key;
    var slots := Slots(s.queues, key);
    var pc := if s.tasks[t].FreshTake? then Releasing(if slots == [] then None else Some(slots[0]))
              else if slots == [] then Compete(key) else Leased(slots[0]);
    TakeOrMissKeepsConserved(s, t, key, pc, Act(s, t));
  }

  /** Where a task goes that neither takes nor adds instances. */
  function HandsPc(s: State, t: TaskId): Pc
    requires t in s.tasks
  {
    match s.tasks[t]
    case Compete(key) => if s.flag then Subscribed(key, s.epoch) else Building(key)
    case Releasing(result) => Notifying(result)
    case Notifying(result) => if result.Some? then Leased(result.value) else Finished
    case Subscribed(key, e) => if s.flag then Waiting(key, e) else Retake(key)
    case Waiting(key, e) => if e < s.epoch then Retake(key) else Waiting(key, e)
    case pc => pc
  }

  lemma HandsRunKeepsConserved(s: State, t: TaskId)
    requires Conserved(s) && t in s.tasks
    requires !s.tasks[t].FirstTake? && !s.tasks[t].Retake? && !s.tasks[t].FreshTake? && !s.tasks[t].Adding?
    ensures Conserved(Act(s, t))
  {
    var pc := HandsPc(s, t);
    assert s.tasks[t := s.tasks[t]] == s.tasks;
    assert Act(s, t).tasks == s.tasks[t := pc];
    HandsKeepConserved(s, Act(s, t), t, pc);
  }

  lemma RunKeepsConserved(s: State, t: TaskId)
    requires Conserved(s) && t in s.tasks
    ensures Conserved(Act(s, t))
  {
    match s.tasks[t]
    case FirstTake(_) => TakesKeepConserved(s, t);
    case Retake(_) => TakesKeepConserved(s, t);
    case FreshTake(_) => TakesKeepConserved(s, t);
    case Adding(key, made) => PutKeepsConserved(s, Act(s, t), t, FreshTake(key), made);
    case _ => HandsRunKeepsConserved(s, t);
  }

  lemma StepKeepsConserved(s: State, step: Step, s': State)
    requires Conserved(s) && Next(s, step, s')
    ensures Conserved(s')
  {
    match step
    case Spawn(t, key) => HandsKeepConserved(s, s', t, FirstTake(key));
    case Run(t) => RunKeepsConserved(s, t);
    case Built(t, made) => HandsKeepConserved(s, s', t, s'.tasks[t]);
    case Cancel(t) =>
      assert s.tasks[t].Leased? ==> ToSet([s.tasks[t].tool]) == {s.tasks[t].tool};
      HandsKeepConserved(s, s', t, s'.tasks[t]);
    case GiveBack(t) =>
      var tool := s.tasks[t].tool;
      assert PutAll(Put(s.queues, tool), []) == Put(s.queues, tool);
      assert PutAll(s.queues, [tool]) == Put(s.queues, tool);
      PutKeepsConserved(s, s', t, Finished, [tool]);
    case Prepare(made) => PrepareKeepsConserved(s, s', made);
  }

  lemma InitHolds(s: State)
    requires Init(s)
    ensures SingleFlight(s) && NoLostWakeup(s) && Conserved(s)
  {
    var empty := State(map[], false, 0, map[], {}, {});
    var ts :| Fresh(empty, ts) && s == State(PutAll(map[], ts), false, 0, map[], ToSet(ts), {});
    PrepareKeepsConserved(empty, s, ts);
  }

  // ----- the theorems over every interleaving -----

  lemma {:induction false} RunKeepsAll(states: seq<State>, steps: seq<Step>, n: nat)
    requires IsRun(states, steps) && n < |states|
    ensures SingleFlight(states[n]) && NoLostWakeup(states[n]) && Conserved(states[n])
  {
    if n == 0 {
      InitHolds(states[0]);
    } else {
      RunKeepsAll(states, steps, n - 1);
      assert StepAt(states, steps, n - 1);
      StepKeepsFlight(states[n - 1], steps[n - 1], states[n]);
      StepKeepsConserved(states[n - 1], steps[n - 1], states[n]);
    }
  }

  lemma AtMostOneExpansion(states: seq<State>, steps: seq<Step>, n: nat, t: TaskId, u: TaskId)
    requires IsRun(states, steps) && n < |states|
    requires t in states[n].tasks && u in states[n].tasks
    requires Expanding(states[n].tasks[t]) && Expanding(states[n].tasks[u])
    ensures t == u && states[n].flag
  {
    RunKeepsAll(states, steps, n);
  }

  /** Every built instance is in exactly one place at every moment of every run. */
  lemma EveryInstanceIsInOnePlace(states: seq<State>, steps: seq<Step>, n: nat, x: Tool)
    requires IsRun(states, steps) && n < |states| && x in states[n].built && x !in states[n].dropped
    ensures Queued(states[n], x) <==> !HeldBySome(states[n], x)
    ensures forall t, u :: CarriedBy(states[n], x, t) && CarriedBy(states[n], x, u) ==> t == u
    ensures Queued(states[n], x) ==> forall i, j :: 0 <= i < j < |states[n].queues[x.key]| ==>
              !(states[n].queues[x.key][i] == x && states[n].queues[x.key][j] == x)
  {
    RunKeepsAll(states, steps, n);
  }

  /** Whatever a take brings to a task's hands has the key that task asked for. */
  lemma TakenToolMatchesRequest(states: seq<State>, steps: seq<Step>, n: nat, t: TaskId, x: Tool)
    requires IsRun(states, steps) && n < |steps| && steps[n] == Run(t) && t in states[n].tasks
    requires states[n].tasks[t].FirstTake? || states[n].tasks[t].Retake? || states[n].tasks[t].FreshTake?
    requires CarriedBy(states[n + 1], x, t)
    ensures x.key == states[n].tasks[t].key
  {
    RunKeepsAll(states, steps, n);
    assert StepAt(states, steps, n);
  }

  // ----- a blocked waiter can always be woken -----

  function StepsLeft(pc: Pc): nat {
    match pc
    case Building(_) => 5
    case Adding(_, _) => 4
    case FreshTake(_) => 3
    case Releasing(_) => 2
    case Notifying(_) => 1
    case _ => 0
  }

  /**
   The worlds that follow when only the notifier `u` runs until it has notified; `made` is what it
   builds, if it has yet to.
   */
  function Solo(s: State, u: TaskId, made: seq<Tool>): (r: seq<State>)
    requires u in s.tasks && MustNotify(s.tasks[u])
    ensures |r| == StepsLeft(s.tasks[u]) + 1 && r[0] == s
    decreases StepsLeft(s.tasks[u])
  {
    var s' := SoloStep(s, u, made);
    if s.tasks[u].Notifying? then [s, s'] else [s] + Solo(s', u, made)
  }

  function SoloStep(s: State, u: TaskId, made: seq<Tool>): (s': State)
    requires u in s.tasks && MustNotify(s.tasks[u])
    ensures u in s'.tasks && StepsLeft(s'.tasks[u]) == StepsLeft(s.tasks[u]) - 1
    ensures !s.tasks[u].Notifying? ==> MustNotify(s'.tasks[u]) && s'.epoch == s.epoch
    ensures s.tasks[u].Notifying? ==> s'.epoch == s.epoch + 1
    ensures forall t :: t in s.tasks && t != u ==> t in s'.tasks && s'.tasks[t] == s.tasks[t]
  {
    if s.tasks[u].Building? then s.(built := s.built + ToSet(made), tasks := s.tasks[u := Adding(s.tasks[u].key, made)])
    else Act(s, u)
  }

  /** The build, if there is one still to come, makes new instances. */
  predicate CanMake(s: State, u: TaskId, made: seq<Tool>)
    requires u in s.tasks
  {
    s.tasks[u].Building? ==> Fresh(s, made)
  }

  ghost predicate CanStep(s: State, s': State) {
    exists step :: Next(s, step, s')
  }

  lemma {:induction false} SoloIsRun(s: State, u: TaskId, made: seq<Tool>, i: nat)
    requires u in s.tasks && MustNotify(s.tasks[u]) && CanMake(s, u, made) && i < |Solo(s, u, made)| - 1
    ensures CanStep(Solo(s, u, made)[i], Solo(s, u, made)[i + 1])
    decreases StepsLeft(s.tasks[u])
  {
    var s' := SoloStep(s, u, made);
    if i == 0 {
      assert Solo(s, u, made)[1] == s';
      if s.tasks[u].Building? { assert Next(s, Built(u, made), s'); } else { assert Next(s, Run(u), s'); }
    } else {
      SoloIsRun(s', u, made, i - 1);
      assert Solo(s, u, made)[i] == Solo(s', u, made)[i - 1] && Solo(s, u, made)[i + 1] == Solo(s', u, made)[i];
    }
  }

  lemma {:induction false} SoloNotifies(s: State, u: TaskId, made: seq<Tool>, t: TaskId)
    requires u in s.tasks && MustNotify(s.tasks[u]) && t in s.tasks && t != u
    ensures var r := Solo(s, u, made);
            r[|r| - 1].epoch == s.epoch + 1 && t in r[|r| - 1].tasks && r[|r| - 1].tasks[t] == s.tasks[t]
    decreases StepsLeft(s.tasks[u])
  {
    if !s.tasks[u].Notifying? { SoloNotifies(SoloStep(s, u, made), u, made, t); }
  }

  /** Task `u`, running alone for at most five steps and building `made` on the way, wakes the waiter `t`. */
  ghost predicate WakesAlone(s: State, u: TaskId, made: seq<Tool>, t: TaskId) {
    && u in s.tasks && MustNotify(s.tasks[u]) && u != t
    && var r := Solo(s, u, made);
       && |r| <= 6
       && (forall i :: 0 <= i < |r| - 1 ==> CanStep(r[i], r[i + 1]))
       && t in r[|r| - 1].tasks && Act(r[|r| - 1], t).tasks[t].Retake?
  }

  /** Some task wakes the waiter on its own, whatever it still builds. */
  ghost predicate HasNotifier(s: State, t: TaskId) {
    exists u :: u in s.tasks && MustNotify(s.tasks[u])
        && forall made :: CanMake(s, u, made) ==> WakesAlone(s, u, made, t)
  }

  /** No waiter is stuck: in every reachable state with a blocked waiter some task can wake it on its own. */
  lemma BlockedWaiterCanBeWoken(states: seq<State>, steps: seq<Step>, n: nat, t: TaskId)
    requires IsRun(states, steps) && n < |states|
    requires t in states[n].tasks && states[n].tasks[t].Waiting? && states[n].tasks[t].epoch == states[n].epoch
    ensures HasNotifier(states[n], t)
  {
    RunKeepsAll(states, steps, n);
    var u :| u in states[n].tasks && MustNotify(states[n].tasks[u]);
    forall made | CanMake(states[n], u, made) ensures WakesAlone(states[n], u, made, t) {
      NotifierWakes(states[n], u, made, t);
    }
  }

  lemma NotifierWakes(s: State, u: TaskId, made: seq<Tool>, t: TaskId)
    requires u in s.tasks && MustNotify(s.tasks[u]) && CanMake(s, u, made) && t in s.tasks
    requires s.tasks[t].Waiting? && s.tasks[t].epoch == s.epoch
    ensures WakesAlone(s, u, made, t)
  {
    forall i | 0 <= i < |Solo(s, u, made)| - 1 ensures CanStep(Solo(s, u, made)[i], Solo(s, u, made)[i + 1]) {
      SoloIsRun(s, u, made, i);
    }
    SoloNotifies(s, u, made, t);
  }
}
