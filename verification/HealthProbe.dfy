/**
 The worker health probe: a watchdog that schedules a timer, awaits one probe at a time, and after
 enough consecutive failures recovers the worker and backs off. Answers of probes that were started
 before a stop may arrive at any later time, and both callbacks may call back into the probe.
 */
module HealthProbe {
  import opened Outcome

  datatype Options = Options(interval: real, threshold: int, initial: real, max: real)

  /** `timer` is the delay of the pending timer. */
  datatype Fields = Fields(timer: Option<real>, running: bool, disposed: bool, inFlight: bool, failures: int,
                           backoff: real, epoch: nat)

  /** `awaited` are the epochs of the probes that have not answered yet. */
  datatype World = World(f: Fields, awaited: multiset<nat>)

  /** What the `probe` and `recover` callbacks may call. */
  datatype Call = CallStart | CallStop | CallDispose | CallReset

  function Min(a: real, b: real): real {
    if a <= b then a else b
  }

  // ----- the methods -----

  function Reset(o: Options, f: Fields): Fields {
    f.(failures := 0, backoff := o.initial)
  }

  function Schedule(f: Fields, delay: real): Fields {
    if !f.running || f.disposed || f.timer.Some? then f else f.(timer := Some(delay))
  }

  function Start(o: Options, f: Fields): Fields {
    if f.disposed || f.running then f else Schedule(Reset(o, f.(running := true)), o.interval)
  }

  function Stop(o: Options, f: Fields): Fields {
    Reset(o, f.(running := false, inFlight := false, epoch := f.epoch + 1, timer := None))
  }

  function Dispose(o: Options, f: Fields): Fields {
    Stop(o, f.(disposed := true))
  }

  function Apply(o: Options, f: Fields, c: Call): Fields {
    match c
    case CallStart => Start(o, f)
    case CallStop => Stop(o, f)
    case CallDispose => Dispose(o, f)
    case CallReset => Reset(o, f)
  }

  function ApplyAll(o: Options, f: Fields, calls: seq<Call>): Fields
    decreases |calls|
  {
    if calls == [] then f else ApplyAll(o, Apply(o, f, calls[0]), calls[1..])
  }

  /** The timer fires: it is no longer pending, and a probe is sent unless one is awaited. */
  function Fire(o: Options, w: World, calls: seq<Call>): World {
    var f := w.f.(timer := None);
    if !f.running || f.disposed || f.inFlight then w.(f := f)
    else World(ApplyAll(o, f.(inFlight := true), calls), w.awaited + multiset{f.epoch})
  }

  /** The answer of a probe sent in the given epoch. */
  predicate Counts(f: Fields, epoch: nat) {
    f.running && !f.disposed && f.epoch == epoch
  }

  /** After `recover` returned: the delay is the backoff so far, and the backoff doubles. */
  function BackOff(o: Options, f: Fields): Fields {
    Schedule(f.(backoff := Min(o.max, f.backoff * 2.0)), f.backoff)
  }

  function Complete(o: Options, w: World, epoch: nat, healthy: bool, calls: seq<Call>, throws: bool): World {
    var f := if w.f.epoch == epoch then w.f.(inFlight := false) else w.f;
    var awaited := w.awaited - multiset{epoch};
    if !Counts(f, epoch) then World(f, awaited)
    else if healthy then World(Schedule(Reset(o, f), o.interval), awaited)
    else if f.failures + 1 < o.threshold then World(Schedule(f.(failures := f.failures + 1), o.interval), awaited)
    else
      var g := ApplyAll(o, f.(failures := 0), calls);
      World(if throws then g else BackOff(o, g), awaited)
  }

  // ----- exactly one of a timer and an awaited probe -----

  predicate ExactlyOne(f: Fields) {
    if f.running then (f.timer.Some? <==> !f.inFlight) else f.timer.None? && !f.inFlight
  }

  /** Running, and nothing will ever happen again. */
  predicate Dead(f: Fields) {
    f.running && f.timer.None? && !f.inFlight
  }

  predicate Consistent(w: World) {
    && (w.f.disposed ==> !w.f.running)
    && w.f.failures >= 0
    && w.awaited[w.f.epoch] == (if w.f.inFlight then 1 else 0)
    && forall e :: e in w.awaited ==> e <= w.f.epoch
  }

  predicate Inv(w: World) {
    Consistent(w) && ExactlyOne(w.f)
  }

  lemma ApplyKeeps(o: Options, w: World, c: Call)
    requires Consistent(w)
    ensures Consistent(w.(f := Apply(o, w.f, c)))
    ensures ExactlyOne(w.f) ==> ExactlyOne(Apply(o, w.f, c))
    ensures Dead(w.f) ==> ExactlyOne(Apply(o, w.f, c)) || Dead(Apply(o, w.f, c))
    ensures Dead(w.f) ==> (ExactlyOne(Apply(o, w.f, c)) <==> c.CallStop? || c.CallDispose?)
  {
    assert w.awaited[w.f.epoch + 1] == 0;
  }

  predicate Stops(calls: seq<Call>) {
    exists i :: 0 <= i < |calls| && (calls[i].CallStop? || calls[i].CallDispose?)
  }

  lemma StopsStep(calls: seq<Call>)
    requires calls != []
    ensures Stops(calls) <==> calls[0].CallStop? || calls[0].CallDispose? || Stops(calls[1..])
  {
    if Stops(calls[1..]) {
      var i :| 0 <= i < |calls[1..]| && (calls[1..][i].CallStop? || calls[1..][i].CallDispose?);
      assert calls[i + 1] == calls[1..][i];
    }
    if Stops(calls) && !(calls[0].CallStop? || calls[0].CallDispose?) {
      var i :| 0 <= i < |calls| && (calls[i].CallStop? || calls[i].CallDispose?);
      assert calls[1..][i - 1] == calls[i];
    }
  }

  lemma {:induction false} ApplyAllKeeps(o: Options, w: World, calls: seq<Call>)
    requires Consistent(w) && (ExactlyOne(w.f) || Dead(w.f))
    ensures Consistent(w.(f := ApplyAll(o, w.f, calls))) && (!w.f.inFlight ==> !ApplyAll(o, w.f, calls).inFlight)
    ensures var f := ApplyAll(o, w.f, calls);
            (ExactlyOne(f) || Dead(f)) && (ExactlyOne(f) <==> ExactlyOne(w.f) || Stops(calls))
    decreases |calls|
  {
    if calls != [] {
      var next := w.(f := Apply(o, w.f, calls[0]));
      ApplyKeeps(o, w, calls[0]);
      StopsStep(calls);
      ApplyAllKeeps(o, next, calls[1..]);
    }
  }

  lemma FireKeeps(o: Options, w: World, calls: seq<Call>)
    requires Inv(w) && w.f.timer.Some?
    ensures Inv(Fire(o, w, calls))
  {
    var f := w.f.(timer := None, inFlight := true);
    var sent := World(f, w.awaited + multiset{f.epoch});
    ApplyAllKeeps(o, sent, calls);
  }

  predicate Recovers(o: Options, w: World, epoch: nat, healthy: bool) {
    Counts(w.f, epoch) && !healthy && w.f.failures + 1 >= o.threshold
  }

  lemma BackOffRevives(o: Options, f: Fields, awaited: multiset<nat>)
    requires Consistent(World(f, awaited)) && (ExactlyOne(f) || Dead(f)) && !f.inFlight
    ensures Inv(World(BackOff(o, f), awaited))
  {
  }

  /** An answer keeps the invariant, unless it makes `recover` throw without having stopped the probe. */
  lemma CompleteKeeps(o: Options, w: World, epoch: nat, healthy: bool, calls: seq<Call>, throws: bool)
    requires Inv(w) && epoch in w.awaited
    ensures Consistent(Complete(o, w, epoch, healthy, calls, throws))
    ensures Inv(Complete(o, w, epoch, healthy, calls, throws))
            <==> !(Recovers(o, w, epoch, healthy) && throws && !Stops(calls))
    ensures Dead(Complete(o, w, epoch, healthy, calls, throws).f)
            <==> Recovers(o, w, epoch, healthy) && throws && !Stops(calls)
  {
    var answered := World(if w.f.epoch == epoch then w.f.(inFlight := false) else w.f, w.awaited - multiset{epoch});
    assert Consistent(answered);
    if Recovers(o, w, epoch, healthy) {
      var f := answered.f.(failures := 0);
      assert Dead(f);
      ApplyAllKeeps(o, answered.(f := f), calls);
      BackOffRevives(o, ApplyAll(o, f, calls), answered.awaited);
    }
  }

  /** A dead probe stays dead whatever arrives, even `start`, until it is stopped. */
  lemma DeadUntilStopped(o: Options, w: World, epoch: nat, healthy: bool, calls: seq<Call>, throws: bool)
    requires Consistent(w) && Dead(w.f) && epoch in w.awaited
    ensures Complete(o, w, epoch, healthy, calls, throws).f == w.f
    ensures Start(o, w.f) == w.f && Dead(Reset(o, w.f))
  {
  }

  // ----- runs -----

  datatype Event =
    | Called(c: Call)
    | Fired(probeCalls: seq<Call>)
    | Answered(epoch: nat, healthy: bool, recoverCalls: seq<Call>, throws: bool)

  /** What may happen, and what it makes of the probe. */
  predicate Enabled(w: World, e: Event) {
    match e
    case Called(_) => true
    case Fired(_) => w.f.timer.Some?
    case Answered(epoch, _, _, _) => epoch in w.awaited
  }

  function After(o: Options, w: World, e: Event): World {
    match e
    case Called(c) => w.(f := Apply(o, w.f, c))
    case Fired(calls) => Fire(o, w, calls)
    case Answered(epoch, healthy, calls, throws) => Complete(o, w, epoch, healthy, calls, throws)
  }

  function Fresh(o: Options): World {
    World(Fields(None, false, false, false, 0, o.initial, 0), multiset{})
  }

  ghost predicate StepAt(o: Options, worlds: seq<World>, events: seq<Event>, i: nat)
    requires |worlds| == |events| + 1 && i < |events|
  {
    Enabled(worlds[i], events[i]) && worlds[i + 1] == After(o, worlds[i], events[i])
  }

  ghost predicate IsRun(o: Options, worlds: seq<World>, events: seq<Event>) {
    && |worlds| == |events| + 1 && worlds[0] == Fresh(o)
    && forall i :: 0 <= i < |events| ==> StepAt(o, worlds, events, i)
  }

  /** `recover` threw out of a recovery that had not stopped the probe. */
  predicate Breaks(o: Options, w: World, e: Event) {
    e.Answered? && Recovers(o, w, e.epoch, e.healthy) && e.throws && !Stops(e.recoverCalls)
  }

  predicate IsStop(e: Event) {
    e.Called? && (e.c.CallStop? || e.c.CallDispose?)
  }

  /** Event `i` broke the probe, and nobody has stopped it since. */
  ghost predicate BrokenSince(o: Options, worlds: seq<World>, events: seq<Event>, i: nat, n: nat)
    requires n <= |events| < |worlds|
  {
    i < n && Breaks(o, worlds[i], events[i]) && forall j :: i < j < n ==> !IsStop(events[j])
  }

  ghost predicate Broken(o: Options, worlds: seq<World>, events: seq<Event>, n: nat)
    requires n <= |events| < |worlds|
  {
    exists i: nat :: BrokenSince(o, worlds, events, i, n)
  }

  lemma BrokenStep(o: Options, worlds: seq<World>, events: seq<Event>, n: nat)
    requires n < |events| < |worlds|
    ensures Broken(o, worlds, events, n + 1)
       <==> Breaks(o, worlds[n], events[n]) || (Broken(o, worlds, events, n) && !IsStop(events[n]))
  {
    if Breaks(o, worlds[n], events[n]) { assert BrokenSince(o, worlds, events, n, n + 1); }
    if Broken(o, worlds, events, n) && !IsStop(events[n]) {
      var i: nat :| BrokenSince(o, worlds, events, i, n);
      assert BrokenSince(o, worlds, events, i, n + 1);
    }
    if Broken(o, worlds, events, n + 1) {
      var i: nat :| BrokenSince(o, worlds, events, i, n + 1);
      if i < n { assert BrokenSince(o, worlds, events, i, n); }
    }
  }

  lemma StepKeeps(o: Options, w: World, e: Event)
    requires Inv(w) && Enabled(w, e)
    ensures Consistent(After(o, w, e)) && (ExactlyOne(After(o, w, e).f) || Dead(After(o, w, e).f))
    ensures Dead(After(o, w, e).f) <==> Breaks(o, w, e)
  {
    match e
    case Called(c) => ApplyKeeps(o, w, c);
    case Fired(calls) => FireKeeps(o, w, calls);
    case Answered(epoch, healthy, calls, throws) => CompleteKeeps(o, w, epoch, healthy, calls, throws);
  }

  lemma DeadStep(o: Options, w: World, e: Event)
    requires Consistent(w) && Dead(w.f) && Enabled(w, e)
    ensures Consistent(After(o, w, e)) && (ExactlyOne(After(o, w, e).f) || Dead(After(o, w, e).f))
    ensures Dead(After(o, w, e).f) <==> !IsStop(e)
    ensures !Breaks(o, w, e)
  {
    match e
    case Called(c) => ApplyKeeps(o, w, c);
    case Answered(epoch, healthy, calls, throws) => DeadUntilStopped(o, w, epoch, healthy, calls, throws);
  }

  /**
   Over every run: exactly one timer or awaited current probe while running and none otherwise, or a
   dead probe, which it is exactly when a throw broke it and nobody has stopped it since.
   */
  lemma {:induction false} ExactlyOneWhileRunning(o: Options, worlds: seq<World>, events: seq<Event>, n: nat)
    requires IsRun(o, worlds, events) && n < |worlds|
    ensures Consistent(worlds[n]) && (ExactlyOne(worlds[n].f) || Dead(worlds[n].f))
    ensures Dead(worlds[n].f) <==> Broken(o, worlds, events, n)
  {
    if n > 0 {
      ExactlyOneWhileRunning(o, worlds, events, n - 1);
      assert StepAt(o, worlds, events, n - 1);
      BrokenStep(o, worlds, events, n - 1);
      if Dead(worlds[n - 1].f) {
        DeadStep(o, worlds[n - 1], events[n - 1]);
      } else {
        StepKeeps(o, worlds[n - 1], events[n - 1]);
      }
    }
  }

  /** Disposed is for good: it never runs, waits or probes again, whatever is called and whatever answers. */
  lemma {:induction false} DisposedForGood(o: Options, worlds: seq<World>, events: seq<Event>, m: nat, n: nat)
    requires IsRun(o, worlds, events) && m < n < |worlds| && events[m] == Called(CallDispose)
    ensures var f := worlds[n].f; f.disposed && !f.running && f.timer.None? && !f.inFlight
  {
    assert StepAt(o, worlds, events, n - 1);
    if m + 1 < n {
      DisposedForGood(o, worlds, events, m, n - 1);
    }
  }

  // ----- when recovery happens -----

  predicate Resets(f: Fields, c: Call) {
    c.CallStart? ==> !f.disposed && !f.running
  }

  /** Some call in the list clears the counters. */
  predicate SomeResets(o: Options, f: Fields, calls: seq<Call>)
    decreases |calls|
  {
    calls != [] && (Resets(f, calls[0]) || SomeResets(o, Apply(o, f, calls[0]), calls[1..]))
  }

  predicate RecoversAt(o: Options, w: World, e: Event) {
    e.Answered? && Recovers(o, w, e.epoch, e.healthy)
  }

  /** A failed answer that counts. */
  predicate Fails(w: World, e: Event) {
    e.Answered? && Counts(w.f, e.epoch) && !e.healthy
  }

  /** Anything that ends a row of failures. */
  predicate EndsRow(o: Options, w: World, e: Event) {
    match e
    case Called(c) => Resets(w.f, c)
    case Fired(calls) => !w.f.inFlight && w.f.running && SomeResets(o, w.f.(timer := None, inFlight := true), calls)
    case Answered(epoch, healthy, _, _) => Counts(w.f, epoch) && (healthy || Recovers(o, w, epoch, healthy))
  }

  function FailuresIn(worlds: seq<World>, events: seq<Event>, m: nat, n: nat): nat
    requires m <= n <= |events| < |worlds|
    decreases n - m
  {
    if m == n then 0 else FailuresIn(worlds, events, m, n - 1) + if Fails(worlds[n - 1], events[n - 1]) then 1 else 0
  }

  /**
   From event `m` to `n` nothing ended the row, the epoch stayed the same, and the counter is the
   number of failures.
   */
  ghost predicate IsRow(o: Options, worlds: seq<World>, events: seq<Event>, m: nat, n: nat)
    requires |worlds| == |events| + 1
  {
    && m <= n <= |events|
    && (forall i :: m <= i < n ==> !EndsRow(o, worlds[i], events[i]))
    && (forall i :: m <= i <= n ==> worlds[i].f.epoch == worlds[n].f.epoch)
    && worlds[n].f.failures == FailuresIn(worlds, events, m, n)
  }

  lemma {:induction false} NoResetKeepsCounters(o: Options, f: Fields, calls: seq<Call>)
    ensures var g := ApplyAll(o, f, calls);
            if SomeResets(o, f, calls) then true else g == f
    decreases |calls|
  {
    if calls != [] { NoResetKeepsCounters(o, Apply(o, f, calls[0]), calls[1..]); }
  }

  lemma {:induction false} SomeResetClears(o: Options, f: Fields, calls: seq<Call>)
    requires SomeResets(o, f, calls)
    ensures ApplyAll(o, f, calls).failures == 0 && ApplyAll(o, f, calls).backoff == o.initial
    decreases |calls|
  {
    var g := Apply(o, f, calls[0]);
    if SomeResets(o, g, calls[1..]) {
      SomeResetClears(o, g, calls[1..]);
    } else {
      NoResetKeepsCounters(o, g, calls[1..]);
    }
  }

  lemma RowStep(o: Options, w: World, e: Event)
    requires Enabled(w, e) && (w.f.disposed ==> !w.f.running)
    ensures var w' := After(o, w, e);
            if EndsRow(o, w, e) then w'.f.failures == 0
            else w'.f.epoch == w.f.epoch && w'.f.failures == w.f.failures + if Fails(w, e) then 1 else 0
  {
    match e
    case Called(c) =>
    case Fired(calls) =>
      var f := w.f.(timer := None, inFlight := true);
      if SomeResets(o, f, calls) { SomeResetClears(o, f, calls); } else { NoResetKeepsCounters(o, f, calls); }
    case Answered(epoch, healthy, calls, throws) =>
      if Recovers(o, w, epoch, healthy) {
        var f := w.f.(inFlight := false, failures := 0);
        if SomeResets(o, f, calls) { SomeResetClears(o, f, calls); } else { NoResetKeepsCounters(o, f, calls); }
      }
  }

  lemma {:induction false} DisposedStays(o: Options, worlds: seq<World>, events: seq<Event>, n: nat)
    requires IsRun(o, worlds, events) && n < |worlds|
    ensures worlds[n].f.disposed ==> !worlds[n].f.running
  {
    if n > 0 {
      DisposedStays(o, worlds, events, n - 1);
      assert StepAt(o, worlds, events, n - 1);
      var w, e := worlds[n - 1], events[n - 1];
      match e
      case Called(c) =>
      case Fired(calls) => CallsKeepDisposed(o, w.f.(timer := None, inFlight := true), calls);
      case Answered(epoch, healthy, calls, throws) => CallsKeepDisposed(o, w.f.(inFlight := false, failures := 0),
        calls);
    }
  }

  lemma {:induction false} CallsKeepDisposed(o: Options, f: Fields, calls: seq<Call>)
    requires f.disposed ==> !f.running
    ensures ApplyAll(o, f, calls).disposed ==> !ApplyAll(o, f, calls).running
    decreases |calls|
  {
    if calls != [] { CallsKeepDisposed(o, Apply(o, f, calls[0]), calls[1..]); }
  }

  lemma {:induction false} RowExists(o: Options, worlds: seq<World>, events: seq<Event>, n: nat) returns (m: nat)
    requires IsRun(o, worlds, events) && n < |worlds|
    ensures IsRow(o, worlds, events, m, n)
  {
    if n == 0 {
      m := 0;
    } else {
      var k := RowExists(o, worlds, events, n - 1);
      assert StepAt(o, worlds, events, n - 1);
      DisposedStays(o, worlds, events, n - 1);
      RowStep(o, worlds[n - 1], events[n - 1]);
      m := if EndsRow(o, worlds[n - 1], events[n - 1]) then n else k;
    }
  }

  /** Below the threshold at every moment, so a recovery comes with exactly the last failure needed. */
  lemma {:induction false} BelowThreshold(o: Options, worlds: seq<World>, events: seq<Event>, n: nat)
    requires IsRun(o, worlds, events) && n < |worlds|
    ensures 0 <= worlds[n].f.failures && (worlds[n].f.failures == 0 || worlds[n].f.failures < o.threshold)
  {
    if n > 0 {
      BelowThreshold(o, worlds, events, n - 1);
      assert StepAt(o, worlds, events, n - 1);
      DisposedStays(o, worlds, events, n - 1);
      RowStep(o, worlds[n - 1], events[n - 1]);
    }
  }

  /** `recover` runs exactly at the answer that completes `max(1, threshold)` failures in a row within one epoch. */
  lemma RecoveryNeedsFailuresInARow(o: Options, worlds: seq<World>, events: seq<Event>, n: nat) returns (m: nat)
    requires IsRun(o, worlds, events) && n < |events|
    ensures IsRow(o, worlds, events, m, n)
    ensures RecoversAt(o, worlds[n], events[n])
       <==> Fails(worlds[n], events[n]) && FailuresIn(worlds, events, m, n) + 1
            == if o.threshold > 1 then o.threshold else 1
  {
    m := RowExists(o, worlds, events, n);
    BelowThreshold(o, worlds, events, n);
  }

  // ----- how long it waits -----

  /** The backoff after `k` recoveries in a row. */
  function Backoff(o: Options, k: nat): real {
    if k == 0 then o.initial else Min(o.max, Backoff(o, k - 1) * 2.0)
  }

  /** `x * 2^k` */
  function Doubled(x: real, k: nat): real {
    if k == 0 then x else 2.0 * Doubled(x, k - 1)
  }

  /** Doubling and capping at every step is the same as doubling all along and capping once. */
  lemma BackoffClosedForm(o: Options, k: nat)
    ensures k > 0 ==> (Backoff(o, k) == Min(o.max, Doubled(o.initial, k))
            <==> o.max >= 0.0 || k == 1 || 2.0 * o.initial <= o.max)
    ensures Backoff(o, 0) == Min(o.max, Doubled(o.initial, 0)) <==> o.initial <= o.max
  {
    if k > 0 {
      if o.max >= 0.0 { CappedOnce(o, k); } else { NegativeCap(o, k); }
    }
  }

  lemma {:induction false} CappedOnce(o: Options, k: nat)
    requires o.max >= 0.0 && k > 0
    ensures Backoff(o, k) == Min(o.max, Doubled(o.initial, k))
  {
    if k == 1 {
      assert Backoff(o, 0) == o.initial && Doubled(o.initial, 0) == o.initial;
    } else {
      CappedOnce(o, k - 1);
    }
  }

  /** A negative cap is doubled along with everything else. */
  lemma {:induction false} NegativeCap(o: Options, k: nat)
    requires o.max < 0.0 && k > 0
    ensures Backoff(o, k) <= o.max && (k > 1 ==> Backoff(o, k) <= 2.0 * o.max)
    ensures 2.0 * o.initial <= o.max ==> Backoff(o, k) == Doubled(o.initial, k)
    ensures 2.0 * o.initial > o.max && k > 1 ==> Backoff(o, k) < Doubled(o.initial, k)
    ensures k == 1 ==> Backoff(o, k) == Min(o.max, Doubled(o.initial, k))
  {
    if k == 1 {
      assert Backoff(o, 0) == o.initial && Doubled(o.initial, 0) == o.initial;
    } else {
      NegativeCap(o, k - 1);
    }
  }

  /** How many recoveries have passed since the counters were last cleared. */
  function Level(o: Options, worlds: seq<World>, events: seq<Event>, n: nat): nat
    requires n <= |events| < |worlds|
  {
    if n == 0 then 0
    else
      var w, e, before := worlds[n - 1], events[n - 1], Level(o, worlds, events, n - 1);
      if RecoversAt(o, w, e) then
        (if SomeResets(o, w.f.(inFlight := false, failures := 0), e.recoverCalls) then 0 else before)
            + if e.throws then 0 else 1
      else if EndsRow(o, w, e) then 0
      else before
  }

  lemma BackoffStep(o: Options, w: World, e: Event)
    requires Enabled(w, e) && (w.f.disposed ==> !w.f.running)
    ensures var f := After(o, w, e).f;
            if RecoversAt(o, w, e) then
              var from := if SomeResets(o, w.f.(inFlight := false, failures := 0), e.recoverCalls) then o.initial
                else w.f.backoff;
              f.backoff == if e.throws then from else Min(o.max, from * 2.0)
            else f.backoff == if EndsRow(o, w, e) then o.initial else w.f.backoff
  {
    match e
    case Called(c) =>
    case Fired(calls) =>
      var f := w.f.(timer := None, inFlight := true);
      if SomeResets(o, f, calls) { SomeResetClears(o, f, calls); } else { NoResetKeepsCounters(o, f, calls); }
    case Answered(epoch, healthy, calls, throws) =>
      if Recovers(o, w, epoch, healthy) {
        var f := w.f.(inFlight := false, failures := 0);
        if SomeResets(o, f, calls) { SomeResetClears(o, f, calls); } else { NoResetKeepsCounters(o, f, calls); }
      }
  }

  lemma {:induction false} BackoffIsLevel(o: Options, worlds: seq<World>, events: seq<Event>, n: nat)
    requires IsRun(o, worlds, events) && n < |worlds|
    ensures worlds[n].f.backoff == Backoff(o, Level(o, worlds, events, n))
  {
    if n > 0 {
      BackoffIsLevel(o, worlds, events, n - 1);
      assert StepAt(o, worlds, events, n - 1);
      DisposedStays(o, worlds, events, n - 1);
      BackoffStep(o, worlds[n - 1], events[n - 1]);
    }
  }

  /** After a recovery that leaves the probe alone, the next probe waits for the level's backoff. */
  lemma RecoveryWaits(o: Options, worlds: seq<World>, events: seq<Event>, n: nat)
    requires IsRun(o, worlds, events) && n < |events| && RecoversAt(o, worlds[n], events[n])
    requires !events[n].throws && !SomeResets(o, worlds[n].f.(inFlight := false, failures := 0), events[n].recoverCalls)
    ensures worlds[n + 1].f.timer == Some(Backoff(o, Level(o, worlds, events, n)))
    ensures Level(o, worlds, events, n + 1) == Level(o, worlds, events, n) + 1
  {
    ExactlyOneWhileRunning(o, worlds, events, n);
    BackoffIsLevel(o, worlds, events, n);
    assert StepAt(o, worlds, events, n);
    NoResetKeepsCounters(o, worlds[n].f.(inFlight := false, failures := 0), events[n].recoverCalls);
  }

  /** Starting, and every answer that counts and does not recover: the next probe comes after the plain interval. */
  lemma OtherwiseWaitsInterval(o: Options, worlds: seq<World>, events: seq<Event>, n: nat)
    requires IsRun(o, worlds, events) && n < |events|
    ensures var w, e, f := worlds[n], events[n], worlds[n + 1].f;
            && (e == Called(CallStart) && !w.f.running && !w.f.disposed ==> f.running && f.timer == Some(o.interval))
            && (e.Answered? && Counts(w.f, e.epoch) && !RecoversAt(o, w, e) ==>
               f.timer == Some(o.interval) && f.failures == if e.healthy then 0 else w.f.failures + 1)
            && (e.Answered? && !Counts(w.f, e.epoch) ==> f.timer == w.f.timer && f.running == w.f.running)
  {
    ExactlyOneWhileRunning(o, worlds, events, n);
    assert StepAt(o, worlds, events, n);
  }

  // ----- runs that go wrong -----

  /** The events run one after the other from a world. */
  function RunFrom(o: Options, w: World, events: seq<Event>): (worlds: seq<World>)
    ensures |worlds| == |events| + 1 && worlds[0] == w
    ensures forall i :: 0 <= i < |events| ==> worlds[i + 1] == After(o, worlds[i], events[i])
    decreases |events|
  {
    if events == [] then [w]
    else
      var rest := RunFrom(o, After(o, w, events[0]), events[1..]);
      assert forall i :: 1 <= i < |events| ==> events[1..][i - 1] == events[i];
      [w] + rest
  }

  /** The shortest way to a recovery: start, one probe, one failed answer. */
  function FailOnce(throws: bool): seq<Event> {
    [Called(CallStart), Fired([]), Answered(0, false, [], throws)]
  }

  lemma FailOnceRuns(o: Options, worlds: seq<World>, events: seq<Event>, throws: bool)
    requires o.threshold <= 1 && events == FailOnce(throws) && worlds == RunFrom(o, Fresh(o), events)
    ensures IsRun(o, worlds, events) && RecoversAt(o, worlds[2], events[2])
    ensures worlds[3].f
            == if throws then worlds[2].f.(inFlight := false) else BackOff(o, worlds[2].f.(inFlight := false))
    ensures worlds[2].f == Fields(None, true, false, true, 0, o.initial, 0)
  {
    assert worlds[1].f == Fields(Some(o.interval), true, false, false, 0, o.initial, 0);
    assert worlds[1].awaited == multiset{};
    assert worlds[2].awaited == multiset{0};
    forall i | 0 <= i < |events| ensures StepAt(o, worlds, events, i) {
      assert worlds[i + 1] == After(o, worlds[i], events[i]);
    }
  }

  /** A `recover` that throws leaves the probe running and dead. */
  lemma ThrowingRecoverKillsProbe(o: Options, worlds: seq<World>, events: seq<Event>)
    requires o.threshold <= 1 && events == FailOnce(true) && worlds == RunFrom(o, Fresh(o), events)
    ensures IsRun(o, worlds, events) && Dead(worlds[3].f) && !Inv(worlds[3]) && Start(o, worlds[3].f) == worlds[3].f
  {
    FailOnceRuns(o, worlds, events, true);
  }

  /** The first wait is the initial backoff even where that exceeds the cap. */
  lemma FirstWaitIgnoresCap(o: Options, worlds: seq<World>, events: seq<Event>)
    requires o.threshold <= 1 && o.initial > o.max && events == FailOnce(false)
             && worlds == RunFrom(o, Fresh(o), events)
    ensures IsRun(o, worlds, events) && worlds[3].f.timer == Some(o.initial) && o.initial > Min(o.max, o.initial)
  {
    FailOnceRuns(o, worlds, events, false);
  }

  // ----- the object -----

  class WorkerHealthProbe {
    const options: Options
    var timer: Option<real>
    var running: bool
    var disposed: bool
    var inFlight: bool
    var consecutiveFailures: int
    var backoffMs: real
    var epoch: nat
    ghost var awaited: multiset<nat>

    ghost function State(): World
      reads this
    {
      World(Fields(timer, running, disposed, inFlight, consecutiveFailures, backoffMs, epoch), awaited)
    }

    /** At every quiescent point: exactly one of a timer and an awaited current probe while running. */
    ghost predicate Valid()
      reads this
    {
      Inv(State())
    }

    constructor (o: Options)
      ensures options == o && State() == Fresh(o) && Valid()
    {
      options := o;
      timer, running, disposed, inFlight := None, false, false, false;
      consecutiveFailures, backoffMs, epoch := 0, o.initial, 0;
      awaited := multiset{};
    }

    method ResetCounters()
      modifies this`consecutiveFailures, this`backoffMs
      ensures State() == old(State()).(f := Reset(options, old(State()).f))
    {
      consecutiveFailures := 0;
      backoffMs := options.initial;
    }

    method ScheduleTimer(delay: real)
      modifies this`timer
      ensures State() == old(State()).(f := Schedule(old(State()).f, delay))
    {
      if !running || disposed || timer.Some? { return; }
      timer := Some(delay);
    }

    method ClearTimer()
      modifies this`timer
      ensures timer == None
    {
      if timer.None? { return; }
      timer := None;
    }

    method StartProbing()
      modifies this
      ensures State() == old(State()).(f := Start(options, old(State()).f))
      ensures old(Valid()) ==> Valid()
    {
      if disposed || running { return; }
      running := true;
      ResetCounters();
      ScheduleTimer(options.interval);
    }

    method StopProbing()
      modifies this
      ensures State() == old(State()).(f := Stop(options, old(State()).f))
      ensures old(Consistent(State())) ==> Valid()
    {
      assert Consistent(State()) ==> awaited[epoch + 1] == 0;
      running := false;
      inFlight := false;
      epoch := epoch + 1;
      ClearTimer();
      ResetCounters();
    }

    method DisposeProbe()
      modifies this
      ensures State() == old(State()).(f := Dispose(options, old(State()).f))
      ensures old(Consistent(State())) ==> Valid()
    {
      assert Consistent(State()) ==> awaited[epoch + 1] == 0;
      disposed := true;
      StopProbing();
    }

    /** A callback's calls back into the probe. */
    method Perform(calls: seq<Call>)
      modifies this
      ensures State() == old(State()).(f := ApplyAll(options, old(State()).f, calls))
    {
      ghost var all := ApplyAll(options, State().f, calls);
      assert calls[0..] == calls;
      for i := 0 to |calls|
        invariant ApplyAll(options, State().f, calls[i..]) == all && awaited == old(awaited)
      {
        assert calls[i..][0] == calls[i] && calls[i..][1..] == calls[i + 1..];
        match calls[i]
        case CallStart => StartProbing();
        case CallStop => StopProbing();
        case CallDispose => DisposeProbe();
        case CallReset => ResetCounters();
      }
    }

    /** The timer's callback: the probe is sent and awaited. */
    method TimerFires(probeCalls: seq<Call>)
      requires Valid() && timer.Some?
      modifies this
      ensures State() == Fire(options, old(State()), probeCalls) && Valid()
    {
      FireKeeps(options, State(), probeCalls);
      timer := None;
      if !running || disposed || inFlight { return; }
      inFlight := true;
      awaited := awaited + multiset{epoch};
      Perform(probeCalls);
    }

    /** The rest of a tick once its probe has answered; `tickEpoch` was read when it was sent. */
    method ProbeAnswers(tickEpoch: nat, healthy: bool, recoverCalls: seq<Call>, throws: bool)
      requires Valid() && tickEpoch in awaited
      modifies this
      ensures State() == Complete(options, old(State()), tickEpoch, healthy, recoverCalls, throws)
      ensures Valid() <==> !(old(Recovers(options, State(), tickEpoch, healthy)) && throws && !Stops(recoverCalls))
    {
      CompleteKeeps(options, State(), tickEpoch, healthy, recoverCalls, throws);
      awaited := awaited - multiset{tickEpoch};
      if epoch == tickEpoch { inFlight := false; }
      if !running || disposed || epoch != tickEpoch { return; }
      if healthy {
        ResetCounters();
        ScheduleTimer(options.interval);
        return;
      }
      consecutiveFailures := consecutiveFailures + 1;
      if consecutiveFailures < options.threshold {
        ScheduleTimer(options.interval);
        return;
      }
      RecoverWorker(recoverCalls, throws);
    }

    /** Enough failures: recover, and unless that throws, wait for the backoff and double it. */
    method RecoverWorker(recoverCalls: seq<Call>, throws: bool)
      modifies this
      ensures var g := ApplyAll(options, old(State()).f.(failures := 0), recoverCalls);
              State() == old(State()).(f := if throws then g else BackOff(options, g))
    {
      consecutiveFailures := 0;
      Perform(recoverCalls);
      if throws { return; }
      var delay := backoffMs;
      backoffMs := Min(options.max, backoffMs * 2.0);
      ScheduleTimer(delay);
    }
  }
}
