/** The sliding-window breaker of dotnet/VedaCircuitBreaker.cs. */
module DotnetBreaker {
  // The object keeps a pruned queue of failure times; the specification keeps the whole history. Times are clock
  // ticks.

  const TICKS_PER_SECOND := 10_000_000

  datatype Config = Config(failureThreshold: int, recoverySeconds: int, successThreshold: int, windowSeconds: int)

  datatype Phase = Closed | Open | HalfOpen

  /** What happened to a breaker, oldest first. */
  datatype Event = Failed(time: int) | Succeeded | WasReset | TurnedHalfOpen

  function Window(c: Config): int { c.windowSeconds * TICKS_PER_SECOND }
  function Recovery(c: Config): int { c.recoverySeconds * TICKS_PER_SECOND }

  // ---------- the history and what it means ----------

  /** The times of the failures since the last success or reset. */
  function FailuresSince(history: seq<Event>): seq<int> {
    if history == [] then []
    else
      var before := FailuresSince(history[..|history| - 1]);
      match history[|history| - 1]
      case Failed(time) => before + [time]
      case Succeeded => []
      case WasReset => []
      case TurnedHalfOpen => before
  }

  /** The successes since the last failure, reset or turn to half-open. */
  function Streak(history: seq<Event>): nat {
    if history == [] || !history[|history| - 1].Succeeded? then 0 else Streak(history[..|history| - 1]) + 1
  }

  /** The times that are not before the cutoff. */
  function From(times: seq<int>, cutoff: int): seq<int> {
    if times == [] then []
    else if times[0] >= cutoff then [times[0]] + From(times[1..], cutoff)
    else From(times[1..], cutoff)
  }

  /** The number of failures in the window that ends now. */
  function CountAt(c: Config, history: seq<Event>, now: int): nat {
    |From(FailuresSince(history), now - Window(c))|
  }

  // ---------- the breaker ----------

  /** The first four components are the fields of the object; `openedAt` is the time of the last
      transition to open, `cutoff` the latest cutoff used for pruning. */
  datatype State = State(
    phase: Phase,
    consecutiveSuccesses: nat,
    openedTime: int,
    failures: seq<int>,
    history: seq<Event>,
    openedAt: int,
    cutoff: int,
    now: int)

  function Initial(c: Config, now: int): State {
    State(Closed, 0, 0, [], [], now, now - Window(c), now)
  }

  /** Dequeues while the oldest failure lies before the cutoff. */
  function Prune(failures: seq<int>, cutoff: int): seq<int> {
    if failures != [] && failures[0] < cutoff then Prune(failures[1..], cutoff) else failures
  }

  function Pruned(c: Config, s: State): State {
    s.(failures := Prune(s.failures, s.now - Window(c)), cutoff := s.now - Window(c))
  }

  function MaybeHalfOpen(c: Config, s: State): State {
    if s.phase == Open && s.now - s.openedTime >= Recovery(c)
    then s.(phase := HalfOpen, consecutiveSuccesses := 0, history := s.history + [TurnedHalfOpen])
    else s
  }

  function RecordSuccess(c: Config, s: State): State {
    s.(consecutiveSuccesses := s.consecutiveSuccesses + 1,
       phase := if s.phase == HalfOpen && s.consecutiveSuccesses + 1 >= c.successThreshold then Closed else s.phase,
       failures := [], history := s.history + [Succeeded])
  }

  /** Pruning reads the clock again, `gap` ticks after the failure was stamped. */
  function RecordFailure(c: Config, s: State, gap: nat): State {
    var stamped := s.(consecutiveSuccesses := 0, failures := s.failures + [s.now], history := s.history + [Failed(s.now)]);
    var s' := Pruned(c, stamped.(now := s.now + gap));
    if s'.phase == HalfOpen || |s'.failures| >= c.failureThreshold
    then s'.(phase := Open, openedTime := s.now, openedAt := if s.phase == Open then s.openedAt else s.now)
    else s'
  }

  function Reset(s: State): State {
    s.(phase := Closed, consecutiveSuccesses := 0, failures := [], history := s.history + [WasReset])
  }

  function CanExecute(c: Config, s: State): (State, bool) {
    var s' := MaybeHalfOpen(c, s);
    (s', s'.phase == Closed || s'.phase == HalfOpen)
  }

  function FailureCount(c: Config, s: State): (State, nat) {
    var s' := Pruned(c, s);
    (s', |s'.failures|)
  }

  datatype Action = DoSuccess | DoFailure(gap: nat) | DoCanExecute | DoCount | DoReset

  /** An action after a delay: the clock never goes backwards. */
  datatype Step = Step(delay: nat, action: Action)

  function Wait(s: State, delay: nat): State { s.(now := s.now + delay) }

  function Apply(c: Config, s: State, step: Step): State {
    var s' := Wait(s, step.delay);
    match step.action
    case DoSuccess => RecordSuccess(c, s')
    case DoFailure(gap) => RecordFailure(c, s', gap)
    case DoCanExecute => CanExecute(c, s').0
    case DoCount => FailureCount(c, s').0
    case DoReset => Reset(s')
  }

  function Run(c: Config, s: State, steps: seq<Step>): State
    decreases |steps|
  {
    if steps == [] then s else Run(c, Apply(c, s, steps[0]), steps[1..])
  }

  // ---------- the class ----------

  class CircuitBreaker {
    const config: Config
    var phase: Phase
    var consecutiveSuccesses: nat
    var openedTime: int
    var failures: seq<int>
    ghost var history: seq<Event>
    ghost var openedAt: int
    ghost var cutoff: int
    /** The clock of the machine. */
    var now: int

    ghost function View(): State
      reads this
    {
      State(phase, consecutiveSuccesses, openedTime, failures, history, openedAt, cutoff, now)
    }

    constructor (config: Config, now: int)
      ensures this.config == config && View() == Initial(config, now)
    {
      this.config, this.now := config, now;
      phase, consecutiveSuccesses, openedTime, failures := Closed, 0, 0, [];
      history, openedAt, cutoff := [], now, now - Window(config);
    }

    method PruneFailures()
      modifies this`failures, this`cutoff
      ensures View() == Pruned(config, old(View()))
    {
      var limit := now - Window(config);
      while |failures| > 0 && failures[0] < limit
        invariant Prune(failures, limit) == Prune(old(failures), limit)
        decreases |failures|
      {
        failures := failures[1..];
      }
      cutoff := limit;
    }

    method TransitionTo(to: Phase)
      modifies this`phase, this`openedAt
      ensures phase == to && openedAt == if old(phase) != to && to == Open then now else old(openedAt)
    {
      if phase == to {
        return;
      }
      phase := to;
      if to == Open {
        openedAt := now;
      }
    }

    method MaybeTransitionToHalfOpen()
      modifies this
      ensures View() == MaybeHalfOpen(config, old(View()))
    {
      if phase == Open {
        if now - openedTime >= Recovery(config) {
          TransitionTo(HalfOpen);
          consecutiveSuccesses := 0;
          history := history + [TurnedHalfOpen];
        }
      }
    }

    method OnSuccess()
      modifies this
      ensures View() == RecordSuccess(config, old(View()))
    {
      consecutiveSuccesses := consecutiveSuccesses + 1;
      if phase == HalfOpen && consecutiveSuccesses >= config.successThreshold {
        TransitionTo(Closed);
      }
      failures := [];
      history := history + [Succeeded];
    }

    method OnFailure(gap: nat)
      modifies this
      ensures View() == RecordFailure(config, old(View()), gap)
    {
      var stamp := now;
      consecutiveSuccesses := 0;
      failures := failures + [stamp];
      history := history + [Failed(stamp)];
      now := now + gap;
      PruneFailures();
      if phase == HalfOpen || |failures| >= config.failureThreshold {
        openedAt := if phase == Open then openedAt else stamp;
        phase := Open;
        openedTime := stamp;
      }
    }

    method IsExecutable() returns (yes: bool)
      modifies this
      ensures (View(), yes) == CanExecute(config, old(View()))
    {
      MaybeTransitionToHalfOpen();
      yes := phase == Closed || phase == HalfOpen;
    }

    method CountFailures() returns (count: nat)
      modifies this
      ensures (View(), count) == FailureCount(config, old(View()))
    {
      PruneFailures();
      count := |failures|;
    }

    method ResetAll()
      modifies this
      ensures View() == Reset(old(View()))
    {
      TransitionTo(Closed);
      consecutiveSuccesses := 0;
      failures := [];
      history := history + [WasReset];
    }
  }

  // ---------- the queue refines the history ----------

  ghost predicate Sorted(times: seq<int>) {
    forall i, j :: 0 <= i < j < |times| ==> times[i] <= times[j]
  }

  ghost predicate NotAfter(times: seq<int>, now: int) {
    forall i :: 0 <= i < |times| ==> times[i] <= now
  }

  lemma {:induction false} FromIn(times: seq<int>, cutoff: int)
    ensures forall t :: t in From(times, cutoff) ==> t in times && t >= cutoff
    ensures |From(times, cutoff)| <= |times|
  {
    if times != [] {
      FromIn(times[1..], cutoff);
    }
  }

  lemma {:induction false} FromAll(times: seq<int>, cutoff: int)
    requires forall i :: 0 <= i < |times| ==> times[i] >= cutoff
    ensures From(times, cutoff) == times
  {
    if times != [] {
      FromAll(times[1..], cutoff);
    }
  }

  lemma {:induction false} FromTwice(times: seq<int>, cutoff: int, later: int)
    requires cutoff <= later
    ensures From(From(times, cutoff), later) == From(times, later)
  {
    if times != [] {
      FromTwice(times[1..], cutoff, later);
      if times[0] >= cutoff {
        assert From(times, cutoff)[1..] == From(times[1..], cutoff);
      }
    }
  }

  lemma {:induction false} FromSnoc(times: seq<int>, cutoff: int, t: int)
    ensures From(times + [t], cutoff) == if t >= cutoff then From(times, cutoff) + [t] else From(times, cutoff)
  {
    if times == [] {
      assert times + [t] == [t] && [t][1..] == [];
    } else {
      assert (times + [t])[1..] == times[1..] + [t];
      FromSnoc(times[1..], cutoff, t);
    }
  }

  /** On a sorted queue, dequeueing from the front is filtering. */
  lemma {:induction false} PruneIsFrom(times: seq<int>, cutoff: int)
    requires Sorted(times)
    ensures Prune(times, cutoff) == From(times, cutoff)
  {
    if times != [] {
      if times[0] < cutoff {
        PruneIsFrom(times[1..], cutoff);
      } else {
        FromAll(times, cutoff);
      }
    }
  }

  /** The queue holds the recorded failures that were not before the last cutoff. */
  ghost predicate QueueOk(c: Config, s: State) {
    var all := FailuresSince(s.history);
    && Sorted(all) && NotAfter(all, s.now)
    && s.failures == From(all, s.cutoff)
    && s.cutoff <= s.now - Window(c)
  }

  ghost predicate Inv(c: Config, s: State) {
    && QueueOk(c, s)
    && s.consecutiveSuccesses == Streak(s.history)
    && (s.phase == Closed ==> |s.failures| < c.failureThreshold)
    && (s.phase == Open ==> s.openedAt <= s.openedTime <= s.now)
  }

  lemma PrunedOk(c: Config, s: State)
    requires Sorted(FailuresSince(s.history)) && NotAfter(FailuresSince(s.history), s.now)
    requires s.failures == From(FailuresSince(s.history), s.cutoff) && s.cutoff <= s.now - Window(c)
    ensures QueueOk(c, Pruned(c, s)) && |Pruned(c, s).failures| <= |s.failures|
    ensures |Pruned(c, s).failures| == CountAt(c, s.history, s.now)
  {
    var all := FailuresSince(s.history);
    var limit := s.now - Window(c);
    FromTwice(all, s.cutoff, limit);
    FromSorted(all, s.cutoff);
    PruneIsFrom(s.failures, limit);
    FromIn(s.failures, limit);
  }

  lemma {:induction false} FromSorted(times: seq<int>, cutoff: int)
    requires Sorted(times)
    ensures Sorted(From(times, cutoff))
  {
    if times != [] {
      FromSorted(times[1..], cutoff);
      if times[0] >= cutoff {
        FromAll(times, cutoff);
      }
    }
  }

  /** Enqueueing a failure and pruning again keeps what lies in the window. */
  lemma PushAndPrune(all: seq<int>, cutoff: int, t: int, limit: int)
    requires Sorted(all) && NotAfter(all, t) && cutoff <= limit
    ensures Prune(From(all, cutoff) + [t], limit) == From(all + [t], limit)
    ensures Sorted(all + [t])
  {
    var queue := From(all, cutoff);
    FromSorted(all, cutoff);
    FromIn(all, cutoff);
    assert NotAfter(queue, t) by {
      assert forall i :: 0 <= i < |queue| ==> queue[i] in queue;
    }
    PruneIsFrom(queue + [t], limit);
    FromSnoc(queue, limit, t);
    FromTwice(all, cutoff, limit);
    FromSnoc(all, limit, t);
  }

  lemma HistorySnoc(history: seq<Event>, e: Event)
    ensures
      FailuresSince(history + [e]) ==
        match e
        case Failed(time) => FailuresSince(history) + [time]
        case Succeeded => []
        case WasReset => []
        case TurnedHalfOpen => FailuresSince(history)
    ensures Streak(history + [e]) == if e.Succeeded? then Streak(history) + 1 else 0
  {
    assert (history + [e])[..|history|] == history;
  }

  lemma WaitInv(c: Config, s: State, delay: nat)
    requires Inv(c, s)
    ensures Inv(c, Wait(s, delay))
  {}

  lemma PushOk(all: seq<int>, t: int, now: int)
    requires NotAfter(all, t) && t <= now
    ensures NotAfter(all + [t], now)
  {}

  lemma FailureQueue(c: Config, s: State, gap: nat)
    requires QueueOk(c, s)
    ensures QueueOk(c, RecordFailure(c, s, gap))
  {
    FailureFields(c, s, gap);
    HistorySnoc(s.history, Failed(s.now));
    PushAndPrune(FailuresSince(s.history), s.cutoff, s.now, s.now + gap - Window(c));
    PushOk(FailuresSince(s.history), s.now, s.now + gap);
  }

  lemma FailureFields(c: Config, s: State, gap: nat)
    ensures
      var s' := RecordFailure(c, s, gap);
      && s'.failures == Prune(s.failures + [s.now], s.now + gap - Window(c))
      && s'.history == s.history + [Failed(s.now)] && s'.now == s.now + gap && s'.cutoff == s'.now - Window(c)
  {}

  lemma FailureInv(c: Config, s: State, gap: nat)
    requires Inv(c, s)
    ensures Inv(c, RecordFailure(c, s, gap))
  {
    FailureQueue(c, s, gap);
    HistorySnoc(s.history, Failed(s.now));
  }

  lemma SuccessInv(c: Config, s: State)
    requires Inv(c, s) && c.failureThreshold >= 1
    ensures Inv(c, RecordSuccess(c, s))
  {
    HistorySnoc(s.history, Succeeded);
  }

  lemma HalfOpenInv(c: Config, s: State)
    requires Inv(c, s)
    ensures Inv(c, MaybeHalfOpen(c, s))
  {
    HistorySnoc(s.history, TurnedHalfOpen);
  }

  lemma ResetInv(c: Config, s: State)
    requires Inv(c, s) && c.failureThreshold >= 1
    ensures Inv(c, Reset(s))
  {
    HistorySnoc(s.history, WasReset);
  }

  lemma ApplyInv(c: Config, s: State, step: Step)
    requires Inv(c, s) && c.failureThreshold >= 1
    ensures Inv(c, Apply(c, s, step))
  {
    var s' := Wait(s, step.delay);
    WaitInv(c, s, step.delay);
    match step.action {
      case DoSuccess => SuccessInv(c, s');
      case DoFailure(gap) => FailureInv(c, s', gap);
      case DoCanExecute => HalfOpenInv(c, s');
      case DoCount => PrunedOk(c, s');
      case DoReset => ResetInv(c, s');
    }
  }

  lemma {:induction false} RunInv(c: Config, s: State, steps: seq<Step>)
    requires Inv(c, s) && c.failureThreshold >= 1
    ensures Inv(c, Run(c, s, steps))
    decreases |steps|
  {
    if steps != [] {
      ApplyInv(c, s, steps[0]);
      RunInv(c, Apply(c, s, steps[0]), steps[1..]);
    }
  }

  /** In every run, the pruned queue yields the number of failures in the window since the last success or
      reset; and a closed breaker has fewer of them than the threshold. */
  lemma WindowRefinesHistory(c: Config, start: int, steps: seq<Step>, delay: nat)
    requires c.failureThreshold >= 1
    ensures
      var s := Wait(Run(c, Initial(c, start), steps), delay);
      && FailureCount(c, s).1 == CountAt(c, s.history, s.now)
      && (s.phase == Closed ==> CountAt(c, s.history, s.now) < c.failureThreshold)
  {
    RunInv(c, Initial(c, start), steps);
    var s := Run(c, Initial(c, start), steps);
    PrunedOk(c, Wait(s, delay));
  }

  /** A success closes a half-open breaker exactly when it completes a streak of SuccessThreshold successes
      since the breaker turned half-open. */
  lemma ClosesAfterStreak(c: Config, start: int, steps: seq<Step>)
    requires c.failureThreshold >= 1
    ensures
      var s := Run(c, Initial(c, start), steps);
      var s' := RecordSuccess(c, s);
      s.phase == HalfOpen ==> (s'.phase == Closed <==> Streak(s'.history) >= c.successThreshold)
  {
    RunInv(c, Initial(c, start), steps);
  }

  /** An open breaker lets nothing through before its recovery time has passed since it opened. */
  lemma NothingDuringRecovery(c: Config, start: int, steps: seq<Step>, delay: nat)
    requires c.failureThreshold >= 1
    ensures
      var s := Wait(Run(c, Initial(c, start), steps), delay);
      s.phase == Open && CanExecute(c, s).1 ==> s.now - s.openedAt >= Recovery(c)
  {
    RunInv(c, Initial(c, start), steps);
  }
}
