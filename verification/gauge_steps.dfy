/**
  Concurrent use of a gauge, step by step: every thread loads the value and retries a weak
  compare-and-exchange until it succeeds, while other threads take their own steps in between.
  Addition is a parameter, so that everything holds for rounding doubles as well.
 */
module GaugeSteps {

  datatype Operation<T> = Change(delta: T) | Set(value: T)

  /** Where a thread is: outside, about to start, in the retry loop with the value it expects, or about to return. */
  datatype Thread<T> = Idle | Pending(op: Operation<T>) | Looping(delta: T, expected: T) | Done(op: Operation<T>)

  datatype Commit<T> = Commit(thread: nat, op: Operation<T>)

  /** The shared value, the threads, and the operations that took effect, in that order. */
  datatype State<T> = State(value: T, threads: seq<Thread<T>>, log: seq<Commit<T>>)

  datatype Step<T> =
    | Call(thread: nat, op: Operation<T>)
    | Load(thread: nat)
    | ExchangeSucceeds(thread: nat)
    | ExchangeFails(thread: nat)
    | FetchAdd(thread: nat)
    | Store(thread: nat)
    | Return(thread: nat)

  /**
    When a step can be taken. An exchange succeeds only if the value is the expected one; it may
    fail whether or not it is. A value that has changed and changed back is the expected one again.
   */
  ghost predicate Enabled<T>(s: State<T>, step: Step<T>) {
    && step.thread < |s.threads|
    && var t := s.threads[step.thread];
    match step
    case Call(_, _) => t.Idle?
    case Load(_) => t.Pending? && t.op.Change?
    case ExchangeSucceeds(_) => t.Looping? && s.value == t.expected
    case ExchangeFails(_) => t.Looping?
    case FetchAdd(_) => t.Pending? && t.op.Change?
    case Store(_) => t.Pending? && t.op.Set?
    case Return(_) => t.Done?
  }

  function Take<T>(add: (T, T) -> T, s: State<T>, step: Step<T>): (s': State<T>)
    requires Enabled(s, step)
    ensures |s'.threads| == |s.threads|
  {
    var i, t := step.thread, s.threads[step.thread];
    match step
    case Call(_, op) => s.(threads := s.threads[i := Pending(op)])
    case Load(_) => s.(threads := s.threads[i := Looping(t.op.delta, s.value)])
    case ExchangeSucceeds(_) =>
      State(add(t.expected, t.delta), s.threads[i := Done(Change(t.delta))], s.log + [Commit(i, Change(t.delta))])
    case ExchangeFails(_) => s.(threads := s.threads[i := Looping(t.delta, s.value)])
    case FetchAdd(_) => State(add(s.value, t.op.delta), s.threads[i := Done(t.op)], s.log + [Commit(i, t.op)])
    case Store(_) => State(t.op.value, s.threads[i := Done(t.op)], s.log + [Commit(i, t.op)])
    case Return(_) => s.(threads := s.threads[i := Idle])
  }

  function Start<T>(value: T, n: nat): State<T> {
    State(value, seq(n, _ => Idle), [])
  }

  /** A run: every step is enabled when it is taken. */
  ghost predicate IsRun<T>(add: (T, T) -> T, start: State<T>, steps: seq<Step<T>>)
    decreases |steps|, 0
  {
    steps == []
    || (IsRun(add, start, steps[..|steps| - 1])
        && Enabled(After(add, start, steps[..|steps| - 1]), steps[|steps| - 1]))
  }

  ghost function After<T>(add: (T, T) -> T, start: State<T>, steps: seq<Step<T>>): State<T>
    requires IsRun(add, start, steps)
    decreases |steps|, 1
  {
    if steps == [] then start
    else Take(add, After(add, start, steps[..|steps| - 1]), steps[|steps| - 1])
  }

  // ----- the specification: operations applied one after the other

  function Apply<T>(add: (T, T) -> T, value: T, op: Operation<T>): T {
    match op
    case Change(delta) => add(value, delta)
    case Set(v) => v
  }

  function Fold<T>(add: (T, T) -> T, value: T, log: seq<Commit<T>>): T {
    if log == [] then value else Apply(add, Fold(add, value, log[..|log| - 1]), log[|log| - 1].op)
  }

  lemma {:induction false} FoldSnoc<T>(add: (T, T) -> T, value: T, log: seq<Commit<T>>, c: Commit<T>)
    ensures Fold(add, value, log + [c]) == Apply(add, Fold(add, value, log), c.op)
  {
    assert (log + [c])[..|log|] == log;
  }

  /** In every interleaving the value is what the committed operations, in commit order, make of the first one. */
  lemma {:induction false} ValueIsFold<T>(add: (T, T) -> T, value: T, n: nat, steps: seq<Step<T>>)
    requires IsRun(add, Start(value, n), steps)
    ensures var s := After(add, Start(value, n), steps); s.value == Fold(add, value, s.log)
    decreases |steps|
  {
    if steps != [] {
      var init, step := steps[..|steps| - 1], steps[|steps| - 1];
      ValueIsFold(add, value, n, init);
      var s := After(add, Start(value, n), init);
      match step {
        case ExchangeSucceeds(i) => FoldSnoc(add, value, s.log, Commit(i, Change(s.threads[i].delta)));
        case FetchAdd(i) => FoldSnoc(add, value, s.log, Commit(i, s.threads[i].op));
        case Store(i) => FoldSnoc(add, value, s.log, Commit(i, s.threads[i].op));
        case _ =>
      }
    }
  }

  /** The deltas of the operations that changed the value. */
  function Deltas(log: seq<Commit<real>>): real {
    if log == [] then 0.0
    else
      var before, op := Deltas(log[..|log| - 1]), log[|log| - 1].op;
      if op.Change? then before + op.delta else before
  }

  /**
    Without rounding, and as long as nothing is set, the value is the first one and all deltas, in
    whatever order they came.
   */
  lemma {:induction false} ValueIsSum(add: (real, real) -> real, value: real, n: nat, steps: seq<Step<real>>)
    requires (forall x, y :: add(x, y) == x + y) && IsRun(add, Start(value, n), steps)
    requires forall i :: 0 <= i < |steps| ==> !steps[i].Store?
    ensures var s := After(add, Start(value, n), steps); s.value == value + Deltas(s.log)
    decreases |steps|
  {
    if steps != [] {
      var init, step := steps[..|steps| - 1], steps[|steps| - 1];
      ValueIsSum(add, value, n, init);
      var s := After(add, Start(value, n), init);
      match step {
        case ExchangeSucceeds(i) => DeltasSnoc(s.log, Commit(i, Change(s.threads[i].delta)));
        case FetchAdd(i) => DeltasSnoc(s.log, Commit(i, s.threads[i].op));
        case _ =>
      }
    }
  }

  lemma {:induction false} DeltasSnoc(log: seq<Commit<real>>, c: Commit<real>)
    ensures Deltas(log + [c]) == Deltas(log) + if c.op.Change? then c.op.delta else 0.0
  {
    assert (log + [c])[..|log|] == log;
  }

  /** Setting replaces the value, whatever it was. */
  lemma {:induction false} StoreSets<T>(add: (T, T) -> T, start: State<T>, steps: seq<Step<T>>, i: nat, v: T)
    requires IsRun(add, start, steps) && IsRun(add, start, steps + [Store(i)])
    requires i < |After(add, start, steps).threads| && After(add, start, steps).threads[i] == Pending(Set(v))
    ensures After(add, start, steps + [Store(i)]).value == v
  {
    assert (steps + [Store(i)])[..|steps|] == steps;
  }

  // ----- every call commits once, between its call and its return

  /** What a thread has called, in order. */
  function Called<T>(steps: seq<Step<T>>, i: nat): seq<Operation<T>> {
    if steps == [] then []
    else
      var before, step := Called(steps[..|steps| - 1], i), steps[|steps| - 1];
      if step.Call? && step.thread == i then before + [step.op] else before
  }

  /** How often a thread has returned. */
  function Returned<T>(steps: seq<Step<T>>, i: nat): nat {
    if steps == [] then 0
    else
      var before, step := Returned(steps[..|steps| - 1], i), steps[|steps| - 1];
      if step.Return? && step.thread == i then before + 1 else before
  }

  /** What a thread has committed, in order. */
  function Committed<T>(log: seq<Commit<T>>, i: nat): seq<Operation<T>> {
    if log == [] then []
    else
      var before, c := Committed(log[..|log| - 1], i), log[|log| - 1];
      if c.thread == i then before + [c.op] else before
  }

  /** The operation a thread has called and not committed yet. */
  function Open<T>(t: Thread<T>): seq<Operation<T>> {
    match t
    case Pending(op) => [op]
    case Looping(delta, _) => [Change(delta)]
    case _ => []
  }

  lemma {:induction false} CommittedSnoc<T>(log: seq<Commit<T>>, c: Commit<T>, i: nat)
    ensures Committed(log + [c], i) == if c.thread == i then Committed(log, i) + [c.op] else Committed(log, i)
  {
    assert (log + [c])[..|log|] == log;
  }

  lemma {:induction false} TraceSnoc<T>(steps: seq<Step<T>>, step: Step<T>, i: nat)
    ensures Called(steps + [step], i)
            == if step.Call? && step.thread == i then Called(steps, i) + [step.op] else Called(steps, i)
    ensures Returned(steps + [step], i)
            == if step.Return? && step.thread == i then Returned(steps, i) + 1 else Returned(steps, i)
  {
    assert (steps + [step])[..|steps|] == steps;
  }

  ghost predicate Accounted<T>(s: State<T>, steps: seq<Step<T>>, i: nat)
    requires i < |s.threads|
  {
    && Called(steps, i) == Committed(s.log, i) + Open(s.threads[i])
    && |Committed(s.log, i)| == Returned(steps, i) + if s.threads[i].Done? then 1 else 0
  }

  lemma {:induction false} StepAccounted<T>(add: (T, T) -> T, s: State<T>, init: seq<Step<T>>, step: Step<T>, i: nat)
    requires Enabled(s, step) && i < |s.threads| && Accounted(s, init, i)
    ensures Accounted(Take(add, s, step), init + [step], i)
  {
    hide Committed, Called, Returned;
    var t := s.threads[step.thread];
    TraceSnoc(init, step, i);
    match step {
      case ExchangeSucceeds(k) => CommittedSnoc(s.log, Commit(k, Change(t.delta)), i);
      case FetchAdd(k) => CommittedSnoc(s.log, Commit(k, t.op), i);
      case Store(k) => CommittedSnoc(s.log, Commit(k, t.op), i);
      case _ =>
    }
    assert Committed(s.log, i) + [] == Committed(s.log, i);
  }

  /**
    In every interleaving, what a thread has called is what it has committed plus the call it is in
    the middle of, and it has returned from all it has committed but one it is about to return from:
    every finished call has taken effect exactly once, while it was running.
   */
  lemma {:induction false} EachCallCommitsOnce<T>(add: (T, T) -> T, value: T, n: nat, steps: seq<Step<T>>, i: nat)
    requires IsRun(add, Start(value, n), steps) && i < n
    ensures var s := After(add, Start(value, n), steps); |s.threads| == n && Accounted(s, steps, i)
    decreases |steps|
  {
    if steps != [] {
      var init := steps[..|steps| - 1];
      EachCallCommitsOnce(add, value, n, init, i);
      StepAccounted(add, After(add, Start(value, n), init), init, steps[|steps| - 1], i);
      assert init + [steps[|steps| - 1]] == steps;
    }
  }

  lemma {:induction false} RunPrefix<T>(add: (T, T) -> T, start: State<T>, steps: seq<Step<T>>, k: nat)
    requires IsRun(add, start, steps) && k <= |steps|
    ensures IsRun(add, start, steps[..k])
    ensures After(add, start, steps[..k]).log <= After(add, start, steps).log
    decreases |steps|
  {
    if k == |steps| {
      assert steps[..k] == steps;
    } else {
      RunPrefix(add, start, steps[..|steps| - 1], k);
      assert steps[..|steps| - 1][..k] == steps[..k];
    }
  }

  /**
    Commits respect real time: whatever a thread had finished when another one called an operation
    is already in the log, and what the other one calls comes behind it.
   */
  lemma {:induction false} CommitsInRealTime<T>(add: (T, T) -> T, value: T, n: nat, steps: seq<Step<T>>, k: nat, i: nat)
    requires IsRun(add, Start(value, n), steps) && k <= |steps| && i < n
    ensures IsRun(add, Start(value, n), steps[..k])
    ensures var log := After(add, Start(value, n), steps[..k]).log;
            && log <= After(add, Start(value, n), steps).log
            && Returned(steps[..k], i) <= |Committed(log, i)| <= |Called(steps[..k], i)|
            && Committed(log, i) <= Called(steps[..k], i)
  {
    RunPrefix(add, Start(value, n), steps, k);
    EachCallCommitsOnce(add, value, n, steps[..k], i);
  }

  // ----- progress

  /** The last step of a thread that is in its retry loop is the read of the value that it expects. */
  lemma {:induction false} LastRead<T>(add: (T, T) -> T, value: T, n: nat, steps: seq<Step<T>>, i: nat) returns (j: nat)
    requires IsRun(add, Start(value, n), steps) && i < |After(add, Start(value, n), steps).threads|
    requires After(add, Start(value, n), steps).threads[i].Looping?
    ensures j < |steps| && steps[j].thread == i && (steps[j].Load? || steps[j].ExchangeFails?)
    ensures forall k :: j < k < |steps| ==> steps[k].thread != i
    ensures IsRun(add, Start(value, n), steps[..j + 1])
    ensures After(add, Start(value, n), steps[..j + 1]).value == After(add, Start(value, n), steps).threads[i].expected
    decreases |steps|
  {
    var init := steps[..|steps| - 1];
    if steps[|steps| - 1].thread == i {
      j := |steps| - 1;
      assert steps[..j + 1] == steps;
    } else {
      j := LastRead(add, value, n, init, i);
      assert init[..j + 1] == steps[..j + 1];
    }
  }

  /** The value only changes with the log, and the log only grows by what threads do that take steps. */
  lemma {:induction false} ChangesAreLogged<T>(add: (T, T) -> T, start: State<T>, steps: seq<Step<T>>, k: nat, i: nat)
    requires IsRun(add, start, steps) && k <= |steps| && forall l :: k <= l < |steps| ==> steps[l].thread != i
    ensures IsRun(add, start, steps[..k])
    ensures var s, s' := After(add, start, steps[..k]), After(add, start, steps);
            && s.log <= s'.log && (s.log == s'.log ==> s.value == s'.value)
            && forall c :: |s.log| <= c < |s'.log| ==> s'.log[c].thread != i
    decreases |steps|
  {
    if k == |steps| {
      assert steps[..k] == steps;
    } else {
      var init := steps[..|steps| - 1];
      ChangesAreLogged(add, start, init, k, i);
      assert init[..k] == steps[..k];
    }
  }

  /**
    An exchange that does not find the expected value: since the thread read it, another thread has
    committed an operation, and only other threads have.
   */
  lemma {:induction false} FailureIsProgress<T>(
    add: (T, T) -> T, value: T, n: nat, steps: seq<Step<T>>, i: nat) returns (j: nat)
    requires IsRun(add, Start(value, n), steps) && i < |After(add, Start(value, n), steps).threads|
    requires var s := After(add, Start(value, n), steps); s.threads[i].Looping? && s.value != s.threads[i].expected
    ensures j < |steps| && steps[j].thread == i && (steps[j].Load? || steps[j].ExchangeFails?)
    ensures forall k :: j < k < |steps| ==> steps[k].thread != i
    ensures IsRun(add, Start(value, n), steps[..j + 1])
    ensures var read, now := After(add, Start(value, n), steps[..j + 1]).log, After(add, Start(value, n), steps).log;
            read < now && forall c :: |read| <= c < |now| ==> now[c].thread != i
  {
    j := LastRead(add, value, n, steps, i);
    ChangesAreLogged(add, Start(value, n), steps, j + 1, i);
  }

  /** How many exchanges of a thread have failed because the value was not the expected one. */
  ghost function Failures<T>(add: (T, T) -> T, start: State<T>, steps: seq<Step<T>>, i: nat): nat
    requires IsRun(add, start, steps) && i < |start.threads|
  {
    if steps == [] then 0
    else
      var init, step := steps[..|steps| - 1], steps[|steps| - 1];
      var s := After(add, start, init);
      Failures(add, start, init, i)
      + if step == ExchangeFails(i) && s.value != s.threads[step.thread].expected then 1 else 0
  }

  /** Over a whole run these are no more than the commits of other threads: one thread fails only if others get done. */
  lemma {:induction false} FailuresAreOthersCommits<T>(add: (T, T) -> T, value: T, n: nat, steps: seq<Step<T>>, i: nat)
    requires IsRun(add, Start(value, n), steps) && i < n
    ensures var s := After(add, Start(value, n), steps);
            && |s.threads| == n
            && var late := if s.threads[i].Looping? && s.value != s.threads[i].expected then 1 else 0;
               Failures(add, Start(value, n), steps, i) + late <= |s.log| - |Committed(s.log, i)|
    decreases |steps|
  {
    if steps != [] {
      var init, step := steps[..|steps| - 1], steps[|steps| - 1];
      FailuresAreOthersCommits(add, value, n, init, i);
      var s := After(add, Start(value, n), init);
      match step {
        case ExchangeSucceeds(k) => CommittedSnoc(s.log, Commit(k, Change(s.threads[k].delta)), i);
        case FetchAdd(k) => CommittedSnoc(s.log, Commit(k, s.threads[k].op), i);
        case Store(k) => CommittedSnoc(s.log, Commit(k, s.threads[k].op), i);
        case _ =>
      }
    }
  }

  // ----- counters

  /** Adding what is not negative does not make a value smaller, however the sum is rounded. */
  ghost predicate AddsUpwards(add: (real, real) -> real) {
    forall x: real, d: real :: 0.0 <= d ==> x <= add(x, d)
  }

  /** A counter only lets increments through that are not negative. */
  ghost predicate Growing(t: Thread<real>) {
    match t
    case Pending(Change(delta)) => 0.0 <= delta
    case Looping(delta, _) => 0.0 <= delta
    case _ => true
  }

  ghost predicate CounterSteps(steps: seq<Step<real>>) {
    forall i :: 0 <= i < |steps| && steps[i].Call? && steps[i].op.Change? ==> 0.0 <= steps[i].op.delta
  }

  lemma {:induction false} ThreadsGrowing(add: (real, real) -> real, value: real, n: nat, steps: seq<Step<real>>)
    requires IsRun(add, Start(value, n), steps) && CounterSteps(steps)
    ensures forall i :: 0 <= i < |After(add, Start(value, n), steps).threads| ==>
              Growing(After(add, Start(value, n), steps).threads[i])
    decreases |steps|
  {
    if steps != [] {
      ThreadsGrowing(add, value, n, steps[..|steps| - 1]);
    }
  }

  /** Between two points of a run without a reset in between, a counter's value never falls. */
  lemma {:induction false} CounterNeverFalls(
    add: (real, real) -> real, value: real, n: nat, steps: seq<Step<real>>, k: nat)
    requires AddsUpwards(add) && IsRun(add, Start(value, n), steps) && CounterSteps(steps) && k <= |steps|
    requires forall i :: k <= i < |steps| ==> !steps[i].Store?
    ensures IsRun(add, Start(value, n), steps[..k])
    ensures After(add, Start(value, n), steps[..k]).value <= After(add, Start(value, n), steps).value
    decreases |steps|
  {
    if k == |steps| {
      assert steps[..k] == steps;
    } else {
      var init := steps[..|steps| - 1];
      CounterNeverFalls(add, value, n, init, k);
      assert init[..k] == steps[..k];
      ThreadsGrowing(add, value, n, init);
    }
  }
}
