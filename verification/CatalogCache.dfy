/**
 The tool catalogue cache: a double-checked, single-flight build per key behind a table of build
 locks, with a bounded number of snapshots. Steps of any number of callers interleave; a caller
 may be cancelled wherever it awaits. The lock entry is removed while other callers still hold the
 old lock, so two locks for one key can be in use at once.
 */
module CatalogCache {
  import opened Outcome
  import opened Ordering

  datatype Key = Key(
    workspaceScope: string, executionScope: Option<string>, mode: string, model: Option<string>,
    customization: nat, integration: nat, mcp: nat, privacy: nat, capability: nat, extension: nat)

  /** The identity of a built snapshot, whatever the build yields. */
  type Snapshot = nat
  type TaskId = nat
  type LockId = nat

  const CACHE_LIMIT: nat := 128

  datatype Pc =
    | Lookup(key: Key)                                      // first `get`
    | Acquire(key: Key)                                     // missed: find or insert the build lock
    | Locking(key: Key, lock: LockId)                       // waiting for that lock
    | Recheck(key: Key, lock: LockId)                       // holds it: second `get`
    | Building(key: Key, lock: LockId)
    | Inserting(key: Key, lock: LockId, snap: Snapshot)
    | Releasing(key: Key, lock: LockId, snap: Snapshot)     // about to remove the lock entry
    | Unlocking(key: Key, lock: LockId, snap: Snapshot)     // about to drop the guard and return
    | Returned(key: Key, snap: Snapshot)
    | Gone

  /**
   `published` lists, per key, the snapshots inserted so far; `builds` counts finished builds.
   `evicted` are the keys that were ever evicted, and `abandoned` counts, per key, the finished
   builds whose caller was cancelled before it could insert them.
   */
  datatype State = State(
    snapshots: map<Key, Snapshot>, locks: map<Key, LockId>, nextLock: LockId, owner: map<LockId, TaskId>,
    tasks: map<TaskId, Pc>, published: map<Key, seq<Snapshot>>, builds: map<Key, nat>,
    evicted: set<Key>, abandoned: map<Key, nat>)

  datatype Step =
    | Spawn(t: TaskId, key: Key)
    | Run(t: TaskId)
    | Built(t: TaskId, snap: Snapshot)
    | Insert(t: TaskId, victim: Option<Key>)
    | Cancel(t: TaskId)

  predicate HoldsLock(pc: Pc) {
    pc.Recheck? || pc.Building? || pc.Inserting? || pc.Releasing? || pc.Unlocking?
  }

  function Published(s: State, k: Key): seq<Snapshot> {
    if k in s.published then s.published[k] else []
  }

  function Builds(s: State, k: Key): nat {
    if k in s.builds then s.builds[k] else 0
  }

  function Abandoned(s: State, k: Key): nat {
    if k in s.abandoned then s.abandoned[k] else 0
  }

  function Goto(s: State, t: TaskId, pc: Pc): State {
    s.(tasks := s.tasks[t := pc])
  }

  /** The lock entry of the key, found or made. */
  function AfterAcquire(s: State, t: TaskId, k: Key): State {
    if k in s.locks then Goto(s, t, Locking(k, s.locks[k]))
    else Goto(s.(locks := s.locks[k := s.nextLock], nextLock := s.nextLock + 1), t, Locking(k, s.nextLock))
  }

  /** The lock entry of the key removed, whoever still waits for that lock. */
  function AfterRelease(s: State, t: TaskId, k: Key, l: LockId, v: Snapshot): State {
    Goto(s.(locks := s.locks - {k}), t, Unlocking(k, l, v))
  }

  function AfterLookup(s: State, k: Key): Pc {
    if k in s.snapshots then Returned(k, s.snapshots[k]) else Acquire(k)
  }

  function AfterLock(s: State, t: TaskId, k: Key, l: LockId): State {
    Goto(s.(owner := s.owner[l := t]), t, Recheck(k, l))
  }

  function AfterRecheck(s: State, k: Key, l: LockId): Pc {
    if k in s.snapshots then Unlocking(k, l, s.snapshots[k]) else Building(k, l)
  }

  function AfterUnlock(s: State, t: TaskId, k: Key, l: LockId, v: Snapshot): State {
    Goto(s.(owner := s.owner - {l}), t, Returned(k, v))
  }

  ghost predicate Runs(s: State, t: TaskId, s': State) {
    t in s.tasks &&
    match s.tasks[t]
    case Lookup(k) => s' == Goto(s, t, AfterLookup(s, k))
    case Acquire(k) => s' == AfterAcquire(s, t, k)
    case Locking(k, l) => l !in s.owner && s' == AfterLock(s, t, k, l)
    case Recheck(k, l) => s' == Goto(s, t, AfterRecheck(s, k, l))
    case Releasing(k, l, v) => s' == AfterRelease(s, t, k, l, v)
    case Unlocking(k, l, v) => s' == AfterUnlock(s, t, k, l, v)
    case _ => false
  }

  ghost predicate Inserts(s: State, t: TaskId, victim: Option<Key>, s': State) {
    t in s.tasks && s.tasks[t].Inserting? &&
    var k, v := s.tasks[t].key, s.tasks[t].snap;
    && (victim.Some? <==> |s.snapshots| >= CACHE_LIMIT && k !in s.snapshots)
    && (victim.Some? ==> victim.value in s.snapshots)
    && s' == Goto(s.(snapshots := (if victim.Some? then s.snapshots - {victim.value} else s.snapshots)[k := v],
                     published := s.published[k := Published(s, k) + [v]],
                     evicted := s.evicted + if victim.Some? then {victim.value} else {}),
                  t, Releasing(k, s.tasks[t].lock, v))
  }

  ghost predicate Next(s: State, step: Step, s': State) {
    match step
    case Spawn(t, k) => (t in s.tasks ==> s.tasks[t].Gone? || s.tasks[t].Returned?) && s' == Goto(s, t, Lookup(k))
    case Run(t) => Runs(s, t, s')
    case Built(t, v) =>
      t in s.tasks && s.tasks[t].Building? &&
      var k := s.tasks[t].key;
      s' == Goto(s.(builds := s.builds[k := Builds(s, k) + 1]), t, Inserting(k, s.tasks[t].lock, v))
    case Insert(t, victim) => Inserts(s, t, victim, s')
    case Cancel(t) =>
      t in s.tasks && !s.tasks[t].Returned? && !s.tasks[t].Gone? && !s.tasks[t].Unlocking? &&
      s' == Goto(s.(owner := if HoldsLock(s.tasks[t]) then s.owner - {s.tasks[t].lock} else s.owner,
                    abandoned := if s.tasks[t].Inserting?
                                 then s.abandoned[s.tasks[t].key := Abandoned(s, s.tasks[t].key) + 1]
                                 else s.abandoned), t, Gone)
  }

  ghost predicate Init(s: State) {
    s == State(map[], map[], 0, map[], map[], map[], map[], {}, map[])
  }

  ghost predicate StepAt(states: seq<State>, steps: seq<Step>, i: nat)
    requires |states| == |steps| + 1 && i < |steps|
  {
    Next(states[i], steps[i], states[i + 1])
  }

  ghost predicate IsRun(states: seq<State>, steps: seq<Step>) {
    && |states| == |steps| + 1 && Init(states[0])
    && forall i :: 0 <= i < |steps| ==> StepAt(states, steps, i)
  }

  // ----- the invariant -----

  /** A lock is held exactly by the task whose program counter says so. */
  ghost predicate LocksOk(s: State) {
    && (forall t :: t in s.tasks && HoldsLock(s.tasks[t]) ==>
       s.tasks[t].lock in s.owner && s.owner[s.tasks[t].lock] == t)
    && (forall l :: l in s.owner ==> l < s.nextLock && s.owner[l] in s.tasks
                                     && HoldsLock(s.tasks[s.owner[l]]) && s.tasks[s.owner[l]].lock == l)
    && (forall k :: k in s.locks ==> s.locks[k] < s.nextLock)
    && (forall t :: t in s.tasks && s.tasks[t].Locking? ==> s.tasks[t].lock < s.nextLock)
  }

  predicate Wants(pc: Pc) {
    pc.Locking? || pc.Recheck? || pc.Building? || pc.Inserting?
  }

  predicate HasSnap(pc: Pc) {
    pc.Releasing? || pc.Unlocking? || pc.Returned?
  }

  /** Before its first publication every caller of a key queues on one and the same lock. */
  ghost predicate Unpublished(s: State, t: TaskId)
    requires t in s.tasks
  {
    var pc := s.tasks[t];
    && (Wants(pc) ==> pc.key in s.locks && s.locks[pc.key] == pc.lock)
    && !HasSnap(pc)
  }

  /** After it, nobody builds the key again and everybody returns the published snapshot. */
  ghost predicate AlreadyPublished(s: State, t: TaskId)
    requires t in s.tasks
  {
    var pc := s.tasks[t];
    && !pc.Building? && !pc.Inserting?
    && (HasSnap(pc) ==> [pc.snap] == Published(s, pc.key))
  }

  ghost predicate TaskOk(s: State, t: TaskId)
    requires t in s.tasks
  {
    var pc := s.tasks[t];
    !pc.Gone? && pc.key !in s.evicted ==>
      if Published(s, pc.key) == [] then Unpublished(s, t) else AlreadyPublished(s, t)
  }

  /** A key that was never evicted is published at most once and its snapshot is the cached one. */
  ghost predicate KeyOk(s: State, k: Key) {
    k !in s.evicted ==>
      && |Published(s, k)| <= 1
      && (k in s.snapshots <==> Published(s, k) != [])
      && (k in s.snapshots ==> Published(s, k) == [s.snapshots[k]])
  }

  ghost predicate Inv(s: State) {
    && |s.snapshots| <= CACHE_LIMIT
    && LocksOk(s)
    && (forall t :: t in s.tasks ==> TaskOk(s, t))
    && (forall k :: KeyOk(s, k))
  }

  /** Two callers in the critical section of a never-published key are the same caller. */
  lemma OneBuilder(s: State, t: TaskId, u: TaskId)
    requires LocksOk(s) && t in s.tasks && u in s.tasks && TaskOk(s, t) && TaskOk(s, u)
    requires HoldsLock(s.tasks[t]) && Wants(s.tasks[t]) && HoldsLock(s.tasks[u]) && Wants(s.tasks[u])
    requires s.tasks[t].key == s.tasks[u].key && s.tasks[t].key !in s.evicted && Published(s, s.tasks[t].key) == []
    ensures t == u
  {
  }

  // ----- each step keeps it -----

  /** Every other task and key is unaffected when neither publications, evictions nor its lock entry change. */
  lemma OthersKeepTaskOk(s: State, s': State, t: TaskId, pc: Pc, u: TaskId)
    requires u in s.tasks && u != t && TaskOk(s, u) && s'.tasks == s.tasks[t := pc]
    requires s'.published == s.published && s'.evicted == s.evicted
    requires forall k :: k in s.locks ==> k in s'.locks && s'.locks[k] == s.locks[k]
    ensures TaskOk(s', u)
  {
  }

  /** Steps that leave the snapshots and the publications alone. */
  lemma QuietKeepsInv(s: State, s': State, t: TaskId, pc: Pc)
    requires Inv(s) && s'.tasks == s.tasks[t := pc]
    requires s'.snapshots == s.snapshots && s'.published == s.published && s'.evicted == s.evicted
    requires forall k :: k in s.locks ==> k in s'.locks && s'.locks[k] == s.locks[k]
    requires LocksOk(s') && TaskOk(s', t)
    ensures Inv(s')
  {
    forall u | u in s'.tasks ensures TaskOk(s', u) {
      if u != t { OthersKeepTaskOk(s, s', t, pc, u); }
    }
    KeysKept(s, s');
  }

  lemma KeysKept(s: State, s': State)
    requires (forall k :: KeyOk(s, k)) && s'.snapshots == s.snapshots && s'.published == s.published
             && s'.evicted == s.evicted
    ensures forall k :: KeyOk(s', k)
  {
    forall k ensures KeyOk(s', k) { assert KeyOk(s, k); }
  }

  lemma LookupKeepsInv(s: State, t: TaskId, k: Key)
    requires Inv(s) && t in s.tasks && s.tasks[t] == Lookup(k)
    ensures Inv(Goto(s, t, AfterLookup(s, k)))
  {
    var pc := AfterLookup(s, k);
    var s' := Goto(s, t, pc);
    KeepLock(s, s', t, pc);
    assert KeyOk(s, k);
    QuietKeepsInv(s, s', t, pc);
  }

  lemma FoundKeepsInv(s: State, t: TaskId, k: Key)
    requires Inv(s) && t in s.tasks && s.tasks[t] == Acquire(k) && k in s.locks
    ensures Inv(AfterAcquire(s, t, k))
  {
    var pc := Locking(k, s.locks[k]);
    assert TaskOk(s, t);
    KeepLock(s, AfterAcquire(s, t, k), t, pc);
    QuietKeepsInv(s, AfterAcquire(s, t, k), t, pc);
  }

  lemma MadeKeepsInv(s: State, t: TaskId, k: Key)
    requires Inv(s) && t in s.tasks && s.tasks[t] == Acquire(k) && k !in s.locks
    ensures Inv(AfterAcquire(s, t, k))
  {
    var pc := Locking(k, s.nextLock);
    assert TaskOk(s, t);
    KeepLock(s, AfterAcquire(s, t, k), t, pc);
    QuietKeepsInv(s, AfterAcquire(s, t, k), t, pc);
  }

  lemma LockingKeepsInv(s: State, t: TaskId, k: Key, l: LockId)
    requires Inv(s) && t in s.tasks && s.tasks[t] == Locking(k, l) && l !in s.owner
    ensures Inv(AfterLock(s, t, k, l))
  {
    var s', pc := AfterLock(s, t, k, l), Recheck(k, l);
    TakeLock(s, s', t, pc);
    assert TaskOk(s, t);
    QuietKeepsInv(s, s', t, pc);
  }

  /** The second look: a miss means the key is still unpublished, a hit returns the published snapshot. */
  lemma RecheckKeepsInv(s: State, t: TaskId, k: Key, l: LockId)
    requires Inv(s) && t in s.tasks && s.tasks[t] == Recheck(k, l)
    ensures Inv(Goto(s, t, AfterRecheck(s, k, l)))
  {
    var pc := AfterRecheck(s, k, l);
    var s' := Goto(s, t, pc);
    KeepLock(s, s', t, pc);
    assert TaskOk(s, t) && KeyOk(s, k);
    QuietKeepsInv(s, s', t, pc);
  }

  lemma UnlockKeepsInv(s: State, t: TaskId, k: Key, l: LockId, v: Snapshot)
    requires Inv(s) && t in s.tasks && s.tasks[t] == Unlocking(k, l, v)
    ensures Inv(AfterUnlock(s, t, k, l, v))
  {
    var s', pc := AfterUnlock(s, t, k, l, v), Returned(k, v);
    DropLock(s, s', t, pc);
    assert TaskOk(s, t);
    QuietKeepsInv(s, s', t, pc);
  }

  lemma RunKeepsInv(s: State, t: TaskId, s': State)
    requires Inv(s) && Runs(s, t, s')
    ensures Inv(s')
  {
    match s.tasks[t]
    case Lookup(k) => LookupKeepsInv(s, t, k);
    case Acquire(k) => if k in s.locks { FoundKeepsInv(s, t, k); } else { MadeKeepsInv(s, t, k); }
    case Locking(k, l) => LockingKeepsInv(s, t, k, l);
    case Recheck(k, l) => RecheckKeepsInv(s, t, k, l);
    case Releasing(k, l, v) => ReleaseKeepsInv(s, t, k, l, v);
    case Unlocking(k, l, v) => UnlockKeepsInv(s, t, k, l, v);
  }

  /** The task goes on holding its lock, or goes on holding none; lock entries may come and go. */
  lemma KeepLock(s: State, s': State, t: TaskId, pc: Pc)
    requires LocksOk(s) && s'.tasks == s.tasks[t := pc] && s'.owner == s.owner
    requires t in s.tasks && HoldsLock(s.tasks[t]) <==> HoldsLock(pc)
    requires HoldsLock(pc) ==> pc.lock == s.tasks[t].lock
    requires s.nextLock <= s'.nextLock && forall k :: k in s'.locks ==> s'.locks[k] < s'.nextLock
    requires pc.Locking? ==> pc.lock < s'.nextLock
    ensures LocksOk(s')
  {
  }

  lemma TakeLock(s: State, s': State, t: TaskId, pc: Pc)
    requires LocksOk(s) && t in s.tasks && s.tasks[t].Locking? && s.tasks[t].lock !in s.owner
    requires s'.tasks == s.tasks[t := pc] && s'.owner == s.owner[s.tasks[t].lock := t]
    requires HoldsLock(pc) && pc.lock == s.tasks[t].lock && s'.locks == s.locks && s'.nextLock == s.nextLock
    ensures LocksOk(s')
  {
  }

  lemma DropLock(s: State, s': State, t: TaskId, pc: Pc)
    requires LocksOk(s) && t in s.tasks && HoldsLock(s.tasks[t])
    requires s'.tasks == s.tasks[t := pc] && s'.owner == s.owner - {s.tasks[t].lock}
    requires !HoldsLock(pc) && !pc.Locking? && s'.locks == s.locks && s'.nextLock == s.nextLock
    ensures LocksOk(s')
  {
    forall u | u in s'.tasks && HoldsLock(s'.tasks[u])
      ensures s'.tasks[u].lock in s'.owner && s'.owner[s'.tasks[u].lock] == u
    {
      assert u != t && s'.tasks[u] == s.tasks[u];
    }
  }

  /** Removing the lock entry is safe because the snapshot is already there. */
  lemma ReleaseKeepsInv(s: State, t: TaskId, k: Key, l: LockId, v: Snapshot)
    requires Inv(s) && t in s.tasks && s.tasks[t] == Releasing(k, l, v)
    ensures Inv(AfterRelease(s, t, k, l, v))
  {
    var s' := AfterRelease(s, t, k, l, v);
    KeepLock(s, s', t, Unlocking(k, l, v));
    forall u | u in s'.tasks ensures TaskOk(s', u) { ReleaseKeepsTask(s, t, k, l, v, u); }
    KeysKept(s, s');
  }

  lemma ReleaseKeepsTask(s: State, t: TaskId, k: Key, l: LockId, v: Snapshot, u: TaskId)
    requires t in s.tasks && s.tasks[t] == Releasing(k, l, v) && u in s.tasks && TaskOk(s, t) && TaskOk(s, u)
    ensures TaskOk(AfterRelease(s, t, k, l, v), u)
  {
    var s' := AfterRelease(s, t, k, l, v);
    assert forall j :: j in s.locks && j != k ==> j in s'.locks && s'.locks[j] == s.locks[j];
  }

  lemma BuiltKeepsInv(s: State, t: TaskId, v: Snapshot, s': State)
    requires Inv(s) && Next(s, Built(t, v), s')
    ensures Inv(s')
  {
    var pc := Inserting(s.tasks[t].key, s.tasks[t].lock, v);
    assert TaskOk(s, t);
    KeepLock(s, s', t, pc);
    QuietKeepsInv(s, s', t, pc);
  }

  lemma SizeAfterRemove<K, V>(m: map<K, V>, k: K)
    requires k in m
    ensures |m - {k}| == |m| - 1
  {
    assert (m - {k}).Keys == m.Keys - {k};
    assert |m - {k}| == |(m - {k}).Keys| && |m| == |m.Keys|;
  }

  lemma InsertKeepsSize(m: map<Key, Snapshot>, victim: Option<Key>, k: Key, v: Snapshot)
    requires |m| <= CACHE_LIMIT
    requires (victim.Some? <==> |m| >= CACHE_LIMIT && k !in m) && (victim.Some? ==> victim.value in m)
    ensures |(if victim.Some? then m - {victim.value} else m)[k := v]| <= CACHE_LIMIT
  {
    if victim.Some? {
      SizeAfterRemove(m, victim.value);
      SizeAfterInsert(m - {victim.value}, k, v);
    } else {
      SizeAfterInsert(m, k, v);
    }
  }

  lemma InsertKeepsTasks(s: State, t: TaskId, victim: Option<Key>, s': State, u: TaskId)
    requires Inv(s) && Inserts(s, t, victim, s') && u in s'.tasks
    ensures TaskOk(s', u)
  {
    var k := s.tasks[t].key;
    assert u in s.tasks && TaskOk(s, u) && TaskOk(s, t) && KeyOk(s, k);
    if u != t && !s.tasks[u].Gone? && s.tasks[u].key == k && k !in s'.evicted {
      if Wants(s.tasks[u]) && HoldsLock(s.tasks[u]) { OneBuilder(s, t, u); }
    }
  }

  lemma InsertKeepsInv(s: State, t: TaskId, victim: Option<Key>, s': State)
    requires Inv(s) && Inserts(s, t, victim, s')
    ensures Inv(s')
  {
    var k := s.tasks[t].key;
    assert TaskOk(s, t);
    InsertKeepsSize(s.snapshots, victim, k, s.tasks[t].snap);
    KeepLock(s, s', t, Releasing(k, s.tasks[t].lock, s.tasks[t].snap));
    forall u | u in s'.tasks ensures TaskOk(s', u) { InsertKeepsTasks(s, t, victim, s', u); }
    forall j ensures KeyOk(s', j) {
      assert KeyOk(s, j);
      InsertKeepsKey(s, t, victim, s', j);
    }
  }

  lemma InsertKeepsKey(s: State, t: TaskId, victim: Option<Key>, s': State, j: Key)
    requires Inserts(s, t, victim, s') && TaskOk(s, t) && KeyOk(s, j)
    ensures KeyOk(s', j)
  {
  }

  lemma CancelKeepsInv(s: State, t: TaskId, s': State)
    requires Inv(s) && Next(s, Cancel(t), s')
    ensures Inv(s')
  {
    if HoldsLock(s.tasks[t]) { DropLock(s, s', t, Gone); } else { KeepLock(s, s', t, Gone); }
    QuietKeepsInv(s, s', t, Gone);
  }

  lemma SpawnKeepsInv(s: State, t: TaskId, k: Key, s': State)
    requires Inv(s) && Next(s, Spawn(t, k), s')
    ensures Inv(s')
  {
    KeepLock(s, s', t, Lookup(k));
    QuietKeepsInv(s, s', t, Lookup(k));
  }

  lemma StepKeepsInv(s: State, step: Step, s': State)
    requires Inv(s) && Next(s, step, s')
    ensures Inv(s')
  {
    match step
    case Spawn(t, k) => SpawnKeepsInv(s, t, k, s');
    case Run(t) => RunKeepsInv(s, t, s');
    case Built(t, v) => BuiltKeepsInv(s, t, v, s');
    case Insert(t, victim) => InsertKeepsInv(s, t, victim, s');
    case Cancel(t) => CancelKeepsInv(s, t, s');
  }

  // ----- the theorems over every interleaving -----

  lemma {:induction false} EveryStateKeepsInv(states: seq<State>, steps: seq<Step>, n: nat)
    requires IsRun(states, steps) && n < |states|
    ensures Inv(states[n])
  {
    if n == 0 {
      assert Inv(states[0]);
    } else {
      EveryStateKeepsInv(states, steps, n - 1);
      assert StepAt(states, steps, n - 1);
      StepKeepsInv(states[n - 1], steps[n - 1], states[n]);
    }
  }

  lemma CacheStaysBounded(states: seq<State>, steps: seq<Step>, n: nat)
    requires IsRun(states, steps) && n < |states|
    ensures |states[n].snapshots| <= 128
  {
    EveryStateKeepsInv(states, steps, n);
  }

  // ----- how often a key is built -----

  /** The callers that have built a snapshot of the key and not inserted it yet. */
  function Inserters(s: State, k: Key): set<TaskId> {
    set t | t in s.tasks && s.tasks[t].Inserting? && s.tasks[t].key == k
  }

  /** Every finished build was published, was abandoned, or is about to be published. */
  ghost predicate CountOk(s: State, k: Key) {
    Builds(s, k) == |Published(s, k)| + Abandoned(s, k) + |Inserters(s, k)|
  }

  lemma BuiltKeepsCount(s: State, t: TaskId, v: Snapshot, s': State, k: Key)
    requires CountOk(s, k) && Next(s, Built(t, v), s')
    ensures CountOk(s', k)
  {
    ComesToInserting(s, t, Inserting(s.tasks[t].key, s.tasks[t].lock, v), s', k);
  }

  lemma ComesToInserting(s: State, t: TaskId, pc: Pc, s': State, k: Key)
    requires t in s.tasks && !s.tasks[t].Inserting? && s'.tasks == s.tasks[t := pc] && pc.Inserting?
    ensures |Inserters(s', k)| == |Inserters(s, k)| + if k == pc.key then 1 else 0
  {
    if k == pc.key {
      assert Inserters(s', k) == Inserters(s, k) + {t} && t !in Inserters(s, k);
    } else {
      assert Inserters(s', k) == Inserters(s, k);
    }
  }

  lemma InsertKeepsCount(s: State, t: TaskId, victim: Option<Key>, s': State, k: Key)
    requires CountOk(s, k) && Inserts(s, t, victim, s')
    ensures CountOk(s', k)
  {
    LeavesInserting(s, t, Releasing(s.tasks[t].key, s.tasks[t].lock, s.tasks[t].snap), s', k);
  }

  lemma LeavesInserting(s: State, t: TaskId, pc: Pc, s': State, k: Key)
    requires t in s.tasks && s.tasks[t].Inserting? && s'.tasks == s.tasks[t := pc] && !pc.Inserting?
    ensures |Inserters(s', k)| == |Inserters(s, k)| - if k == s.tasks[t].key then 1 else 0
  {
    if k == s.tasks[t].key {
      assert Inserters(s', k) == Inserters(s, k) - {t} && t in Inserters(s, k);
    } else {
      assert Inserters(s', k) == Inserters(s, k);
    }
  }

  lemma CancelKeepsCount(s: State, t: TaskId, s': State, k: Key)
    requires CountOk(s, k) && Next(s, Cancel(t), s')
    ensures CountOk(s', k)
  {
    if s.tasks[t].Inserting? { LeavesInserting(s, t, Gone, s', k); } else { QuietKeepsCount(s, t, Gone, s', k); }
  }

  /** The steps of a caller that neither finish nor insert a build. */
  lemma QuietKeepsCount(s: State, t: TaskId, pc: Pc, s': State, k: Key)
    requires CountOk(s, k) && s'.tasks == s.tasks[t := pc] && !pc.Inserting?
             && (t in s.tasks ==> !s.tasks[t].Inserting?)
    requires s'.published == s.published && s'.builds == s.builds && s'.abandoned == s.abandoned
    ensures CountOk(s', k)
  {
    assert Inserters(s', k) == Inserters(s, k);
  }

  lemma AcquireKeepsCount(s: State, t: TaskId, j: Key, k: Key)
    requires CountOk(s, k) && t in s.tasks && s.tasks[t] == Acquire(j)
    ensures CountOk(AfterAcquire(s, t, j), k)
  {
    if j in s.locks {
      QuietKeepsCount(s, t, Locking(j, s.locks[j]), AfterAcquire(s, t, j), k);
    } else {
      QuietKeepsCount(s, t, Locking(j, s.nextLock), AfterAcquire(s, t, j), k);
    }
  }

  lemma LookKeepsCount(s: State, t: TaskId, s': State, k: Key)
    requires CountOk(s, k) && Runs(s, t, s') && (s.tasks[t].Lookup? || s.tasks[t].Recheck? || s.tasks[t].Acquire?)
    ensures CountOk(s', k)
  {
    match s.tasks[t]
    case Lookup(j) => QuietKeepsCount(s, t, AfterLookup(s, j), s', k);
    case Acquire(j) => AcquireKeepsCount(s, t, j, k);
    case Recheck(j, l) => QuietKeepsCount(s, t, AfterRecheck(s, j, l), s', k);
  }

  lemma LockKeepsCount(s: State, t: TaskId, s': State, k: Key)
    requires CountOk(s, k) && Runs(s, t, s') && (s.tasks[t].Locking? || s.tasks[t].Releasing? || s.tasks[t].Unlocking?)
    ensures CountOk(s', k)
  {
    match s.tasks[t]
    case Locking(j, l) => QuietKeepsCount(s, t, Recheck(j, l), s', k);
    case Releasing(j, l, v) => QuietKeepsCount(s, t, Unlocking(j, l, v), s', k);
    case Unlocking(j, l, v) => QuietKeepsCount(s, t, Returned(j, v), s', k);
  }

  lemma RunKeepsCount(s: State, t: TaskId, s': State, k: Key)
    requires CountOk(s, k) && Runs(s, t, s')
    ensures CountOk(s', k)
  {
    if s.tasks[t].Locking? || s.tasks[t].Releasing? || s.tasks[t].Unlocking? {
      LockKeepsCount(s, t, s', k);
    } else {
      LookKeepsCount(s, t, s', k);
    }
  }

  lemma StepKeepsCount(s: State, step: Step, s': State, k: Key)
    requires CountOk(s, k) && Next(s, step, s')
    ensures CountOk(s', k)
  {
    match step
    case Built(t, v) => BuiltKeepsCount(s, t, v, s', k);
    case Insert(t, victim) => InsertKeepsCount(s, t, victim, s', k);
    case Cancel(t) => CancelKeepsCount(s, t, s', k);
    case Run(t) => RunKeepsCount(s, t, s', k);
    case Spawn(t, j) => QuietKeepsCount(s, t, Lookup(j), s', k);
  }

  /** Conservation of builds, over every run and for every key, evicted or not. */
  lemma {:induction false} BuildsAreAccountedFor(states: seq<State>, steps: seq<Step>, n: nat, k: Key)
    requires IsRun(states, steps) && n < |states|
    ensures Builds(states[n], k) == |Published(states[n], k)| + Abandoned(states[n], k) + |Inserters(states[n], k)|
  {
    if n == 0 {
      assert Inserters(states[0], k) == {};
    } else {
      BuildsAreAccountedFor(states, steps, n - 1, k);
      assert StepAt(states, steps, n - 1);
      StepKeepsCount(states[n - 1], steps[n - 1], states[n], k);
    }
  }

  /** Before the publication at most one caller is inserting, after it none. */
  lemma OneInserter(s: State, k: Key)
    requires Inv(s) && k !in s.evicted
    ensures |Published(s, k)| + |Inserters(s, k)| <= 1
  {
    assert KeyOk(s, k);
    var all := Inserters(s, k);
    if all != {} {
      var t :| t in all;
      assert TaskOk(s, t);
      forall u | u in all ensures u == t {
        assert TaskOk(s, u);
        OneBuilder(s, t, u);
      }
      assert all == {t};
    }
  }

  /**
   A key never evicted is published at most once, and built at most once exactly when no finished
   build was abandoned, or one was and nobody has built the key again.
   */
  lemma BuiltAtMostOnce(states: seq<State>, steps: seq<Step>, n: nat, k: Key)
    requires IsRun(states, steps) && n < |states| && k !in states[n].evicted
    ensures |Published(states[n], k)| <= 1
    ensures var s := states[n];
            Builds(s, k) <= 1
            <==> Abandoned(s, k) == 0
                 || (Abandoned(s, k) == 1 && Published(s, k) == [] && Inserters(s, k) == {})
  {
    EveryStateKeepsInv(states, steps, n);
    OneInserter(states[n], k);
    BuildsAreAccountedFor(states, steps, n, k);
  }

  // ----- a key that is built twice -----

  /** Some run ends in `s`. */
  ghost predicate CanReach(s: State) {
    exists states, steps :: IsRun(states, steps) && states[|steps|] == s
  }

  lemma ReachNext(s: State, step: Step, s': State)
    requires CanReach(s) && Next(s, step, s')
    ensures CanReach(s')
  {
    var states, steps :| IsRun(states, steps) && states[|steps|] == s;
    RunGoesOn(states, steps, step, s');
    var states', steps' := states + [s'], steps + [step];
    assert states'[|steps'|] == s';
  }

  lemma RunGoesOn(states: seq<State>, steps: seq<Step>, step: Step, s': State)
    requires IsRun(states, steps) && Next(states[|steps|], step, s')
    ensures IsRun(states + [s'], steps + [step])
  {
    var states', steps' := states + [s'], steps + [step];
    forall i | 0 <= i < |steps'| ensures StepAt(states', steps', i) {
      if i < |steps| { assert StepAt(states, steps, i); }
    }
  }

  lemma ReachRun(s: State, t: TaskId, s': State)
    requires CanReach(s) && Runs(s, t, s')
    ensures CanReach(s')
  {
    ReachNext(s, Run(t), s');
  }

  lemma AgainTask(s: State, t: TaskId, a: Pc, b: Pc)
    ensures Goto(Goto(s, t, a), t, b) == Goto(s, t, b)
  {
    assert s.tasks[t := a][t := b] == s.tasks[t := b];
  }

  /** A caller of a key that is neither cached nor being built comes to its lock. */
  lemma MissLocks(s: State, t: TaskId, k: Key)
    requires CanReach(s) && t !in s.tasks && k !in s.snapshots && k in s.locks
    ensures CanReach(Goto(s, t, Locking(k, s.locks[k])))
  {
    var s1, s2 := Goto(s, t, Lookup(k)), Goto(s, t, Acquire(k));
    ReachNext(s, Spawn(t, k), s1);
    AgainTask(s, t, Lookup(k), Acquire(k));
    ReachRun(s1, t, s2);
    AgainTask(s, t, Acquire(k), Locking(k, s.locks[k]));
    ReachRun(s2, t, Goto(s, t, Locking(k, s.locks[k])));
  }

  /** With the lock free it takes it, looks again and builds. */
  lemma LockBuilds(s: State, t: TaskId, k: Key, l: LockId)
    requires CanReach(Goto(s, t, Locking(k, l))) && k !in s.snapshots && l !in s.owner
    ensures CanReach(Goto(s.(owner := s.owner[l := t]), t, Building(k, l)))
  {
    var s0, held := Goto(s, t, Locking(k, l)), s.(owner := s.owner[l := t]);
    AgainTask(held, t, Locking(k, l), Recheck(k, l));
    ReachRun(s0, t, Goto(held, t, Recheck(k, l)));
    AgainTask(held, t, Recheck(k, l), Building(k, l));
    ReachRun(Goto(held, t, Recheck(k, l)), t, Goto(held, t, Building(k, l)));
  }

  lemma BuildEnds(s: State, t: TaskId, k: Key, l: LockId, v: Snapshot)
    requires CanReach(Goto(s, t, Building(k, l)))
    ensures CanReach(Goto(s.(builds := s.builds[k := Builds(s, k) + 1]), t, Inserting(k, l, v)))
  {
    var done := s.(builds := s.builds[k := Builds(s, k) + 1]);
    AgainTask(done, t, Building(k, l), Inserting(k, l, v));
    ReachNext(Goto(s, t, Building(k, l)), Built(t, v), Goto(done, t, Inserting(k, l, v)));
  }

  const EMPTY: State := State(map[], map[], 0, map[], map[], map[], map[], {}, map[])

  /** The first caller of all makes the lock entry. */
  lemma FirstLocks(empty: State, k: Key)
    requires empty == EMPTY
    ensures CanReach(Goto(empty.(locks := map[k := 0], nextLock := 1), 0, Locking(k, 0)))
  {
    var none: seq<Step> := [];
    assert IsRun([empty], none) && [empty][|none|] == empty;
    var s1, s2 := Goto(empty, 0, Lookup(k)), Goto(empty, 0, Acquire(k));
    ReachNext(empty, Spawn(0, k), s1);
    AgainTask(empty, 0, Lookup(k), Acquire(k));
    ReachRun(s1, 0, s2);
    var made := empty.(locks := map[k := 0], nextLock := 1);
    assert s2.locks[k := 0] == made.locks;
    AgainTask(made, 0, Acquire(k), Locking(k, 0));
    ReachRun(s2, 0, Goto(made, 0, Locking(k, 0)));
  }

  lemma BuildIsAbandoned(s: State, k: Key, v: Snapshot)
    requires CanReach(Goto(s, 0, Inserting(k, 0, v))) && s.owner == map[0 := 0] && s.abandoned == map[]
    ensures CanReach(Goto(s.(owner := map[], abandoned := map[k := 1]), 0, Gone))
  {
    var before := Goto(s, 0, Inserting(k, 0, v));
    var after := s.(owner := map[], abandoned := map[k := 1]);
    AgainTask(after, 0, Inserting(k, 0, v), Gone);
    assert before.owner - {0} == map[] && before.abandoned[k := 1] == after.abandoned;
    ReachNext(before, Cancel(0), Goto(after, 0, Gone));
  }

  /** One caller builds and is cancelled before it inserts; the next caller builds the same key again. */
  lemma CancelledBuildIsRepeated(k: Key, v: Snapshot, w: Snapshot) returns (s: State)
    ensures CanReach(s) && k !in s.evicted && Builds(s, k) == 2
  {
    var empty := EMPTY;
    var made := empty.(locks := map[k := 0], nextLock := 1);
    FirstLocks(empty, k);
    LockBuilds(made, 0, k, 0);
    BuildEnds(made.(owner := made.owner[0 := 0]), 0, k, 0, v);
    var once := made.(owner := map[0 := 0], builds := map[k := 1]);
    assert made.owner[0 := 0] == once.owner && made.builds[k := 1] == once.builds;
    BuildIsAbandoned(once, k, v);
    var gone := Goto(once.(owner := map[], abandoned := map[k := 1]), 0, Gone);
    MissLocks(gone, 1, k);
    LockBuilds(gone, 1, k, 0);
    BuildEnds(gone.(owner := gone.owner[0 := 1]), 1, k, 0, w);
    s := Goto(gone.(owner := gone.owner[0 := 1], builds := gone.builds[k := 2]), 1, Inserting(k, 0, w));
  }

  /** All callers of a key that was never evicted return one and the same snapshot, the cached one. */
  lemma CallersShareOneSnapshot(states: seq<State>, steps: seq<Step>, n: nat, t: TaskId)
    requires IsRun(states, steps) && n < |states|
    requires t in states[n].tasks && states[n].tasks[t].Returned? && states[n].tasks[t].key !in states[n].evicted
    ensures var pc := states[n].tasks[t];
            pc.key in states[n].snapshots && states[n].snapshots[pc.key] == pc.snap
  {
    EveryStateKeepsInv(states, steps, n);
    assert TaskOk(states[n], t) && KeyOk(states[n], states[n].tasks[t].key);
  }

  // ----- hits, and lock entries left behind -----

  /** Who finds the key cached gets it at once, without a lock, and nobody begins to build what is cached. */
  lemma CachedIsReturned(states: seq<State>, steps: seq<Step>, n: nat, t: TaskId)
    requires IsRun(states, steps) && n < |steps| && steps[n] == Run(t)
    ensures t in states[n].tasks && t in states[n + 1].tasks
    ensures var s, s', pc := states[n], states[n + 1], states[n].tasks[t];
            && (pc.Lookup? && pc.key in s.snapshots ==>
               s'.tasks[t] == Returned(pc.key, s.snapshots[pc.key]) && s'.locks == s.locks && s'.owner == s.owner)
            && (s'.tasks[t].Building? ==> s'.tasks[t].key !in s.snapshots)
  {
    assert StepAt(states, steps, n);
  }

  predicate Uses(pc: Pc, k: Key, l: LockId) {
    (Wants(pc) || pc.Releasing?) && pc.key == k && pc.lock == l
  }

  /** A caller leaves without removing the entry: cancelled, or served by the second look. */
  predicate LeavesEntry(s: State, step: Step, k: Key) {
    && (step.Cancel? || step.Run?) && step.t in s.tasks && !s.tasks[step.t].Gone? && s.tasks[step.t].key == k
    && if step.Cancel? then Wants(s.tasks[step.t]) || s.tasks[step.t].Releasing?
       else s.tasks[step.t].Recheck? && k in s.snapshots
  }

  /** What a step does to the table of locks. */
  function LocksAfter(s: State, step: Step): map<Key, LockId> {
    if !step.Run? || step.t !in s.tasks then s.locks
    else
      match s.tasks[step.t]
      case Acquire(k) => if k in s.locks then s.locks else s.locks[k := s.nextLock]
      case Releasing(k, _, _) => s.locks - {k}
      case _ => s.locks
  }

  /** Where a user of a lock goes. */
  ghost predicate Advances(s: State, step: Step, pc': Pc)
    requires step.t in s.tasks
  {
    match s.tasks[step.t]
    case Acquire(k) => pc'.Gone? || pc' == Locking(k, if k in s.locks then s.locks[k] else s.nextLock)
    case Locking(k, l) => pc'.Gone? || pc' == Recheck(k, l)
    case Recheck(k, l) => pc'.Gone? || if k in s.snapshots then step.Cancel? || step.Run? else pc' == Building(k, l)
    case Building(k, l) => pc'.Gone? || (pc'.Inserting? && pc'.key == k && pc'.lock == l)
    case Inserting(k, l, v) => pc'.Gone? || pc' == Releasing(k, l, v)
    case Releasing(_, _, _) => step.Cancel? || step.Run?
    case _ => true
  }

  /** The step moves one task on, as its place demands, and the locks with it. */
  ghost predicate Moves(s: State, step: Step, s': State) {
    && step.t in s'.tasks && s'.tasks == s.tasks[step.t := s'.tasks[step.t]] && s'.locks == LocksAfter(s, step)
    && (step.t in s.tasks ==> Advances(s, step, s'.tasks[step.t]))
    && (s'.tasks[step.t].Gone? ==> step.Cancel?) && (step.Run? ==> step.t in s.tasks)
  }

  lemma LooksMove(s: State, t: TaskId, k: Key)
    requires t in s.tasks
    ensures s.tasks[t] == Lookup(k) ==> Moves(s, Run(t), Goto(s, t, AfterLookup(s, k)))
    ensures forall l :: s.tasks[t] == Recheck(k, l) ==> Moves(s, Run(t), Goto(s, t, AfterRecheck(s, k, l)))
  {
  }

  lemma AcquireMoves(s: State, t: TaskId, k: Key)
    requires t in s.tasks && s.tasks[t] == Acquire(k)
    ensures Moves(s, Run(t), AfterAcquire(s, t, k))
  {
  }

  lemma LockMoves(s: State, t: TaskId, k: Key, l: LockId)
    requires t in s.tasks && s.tasks[t] == Locking(k, l)
    ensures Moves(s, Run(t), AfterLock(s, t, k, l))
  {
  }

  lemma ReleaseMoves(s: State, t: TaskId, k: Key, l: LockId, v: Snapshot)
    requires t in s.tasks
    ensures s.tasks[t] == Releasing(k, l, v) ==> Moves(s, Run(t), AfterRelease(s, t, k, l, v))
    ensures s.tasks[t] == Unlocking(k, l, v) ==> Moves(s, Run(t), AfterUnlock(s, t, k, l, v))
  {
  }

  lemma RunMoves(s: State, t: TaskId, s': State)
    requires Runs(s, t, s')
    ensures Moves(s, Run(t), s')
  {
    match s.tasks[t]
    case Lookup(k) => LooksMove(s, t, k);
    case Acquire(k) => AcquireMoves(s, t, k);
    case Locking(k, l) => LockMoves(s, t, k, l);
    case Recheck(k, l) => LooksMove(s, t, k);
    case Releasing(k, l, v) => ReleaseMoves(s, t, k, l, v);
    case Unlocking(k, l, v) => ReleaseMoves(s, t, k, l, v);
  }

  lemma StepMoves(s: State, step: Step, s': State)
    requires Next(s, step, s')
    ensures Moves(s, step, s')
  {
    match step
    case Run(t) => RunMoves(s, t, s');
    case Spawn(_, _) =>
    case Built(_, _) =>
    case Insert(_, _) =>
    case Cancel(_) =>
  }

  lemma EntryStep(s: State, step: Step, s': State, k: Key, u: TaskId) returns (t: TaskId)
    requires Next(s, step, s') && k in s'.locks
    requires k in s.locks ==> u in s.tasks && Uses(s.tasks[u], k, s.locks[k])
    ensures LeavesEntry(s, step, k) || (t in s'.tasks && Uses(s'.tasks[t], k, s'.locks[k]))
  {
    StepMoves(s, step, s');
    t := EntryKept(s, step, s'.tasks[step.t], k, u);
  }

  lemma EntryKept(s: State, step: Step, pc': Pc, k: Key, u: TaskId) returns (t: TaskId)
    requires k in LocksAfter(s, step) && (k in s.locks ==> u in s.tasks && Uses(s.tasks[u], k, s.locks[k]))
    requires (step.t in s.tasks ==> Advances(s, step, pc')) && (pc'.Gone? ==> step.Cancel?)
    requires step.Run? ==> step.t in s.tasks
    ensures LeavesEntry(s, step, k)
            || (t == step.t && Uses(pc', k, LocksAfter(s, step)[k]))
            || (t in s.tasks && t != step.t && Uses(s.tasks[t], k, LocksAfter(s, step)[k]))
  {
    t := if k in s.locks then u else step.t;
  }

  /** The entry has a user, or somebody has left it behind. */
  ghost predicate HasReason(states: seq<State>, steps: seq<Step>, n: nat, k: Key)
    requires n < |states| && n <= |steps| <= |states| && k in states[n].locks
  {
    || (exists t :: t in states[n].tasks && Uses(states[n].tasks[t], k, states[n].locks[k]))
    || (exists m :: 0 <= m < n && LeavesEntry(states[m], steps[m], k))
  }

  /**
   The table of build locks does not grow by itself: an entry belongs to a caller on its way to that
   lock or holding it, unless some caller was cancelled or found the snapshot at the second look.
   */
  lemma {:induction false} LockEntryHasReason(states: seq<State>, steps: seq<Step>, n: nat, k: Key)
    requires IsRun(states, steps) && n < |states| && k in states[n].locks
    ensures HasReason(states, steps, n, k)
  {
    var m := n - 1;
    assert StepAt(states, steps, m);
    var u: TaskId := 0;
    if k in states[m].locks {
      LockEntryHasReason(states, steps, m, k);
      if t :| t in states[m].tasks && Uses(states[m].tasks[t], k, states[m].locks[k]) { u := t; }
    }
    if k in states[m].locks && !(u in states[m].tasks && Uses(states[m].tasks[u], k, states[m].locks[k])) {
      assert HasReason(states, steps, n, k);
    } else {
      u := EntryStep(states[m], steps[m], states[n], k, u);
    }
  }
}
