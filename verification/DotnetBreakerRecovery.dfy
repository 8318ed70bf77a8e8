/** When the breaker of dotnet/VedaCircuitBreaker.cs lets calls through. */
module DotnetBreakerRecovery {
  // The phase of `DotnetBreaker` and the answers of `CanExecute`, read off what was recorded in the run so far.

  import opened DotnetBreaker

  // ---------- what a run tells ----------

  /** The time after the run. */
  function Clock(start: int, steps: seq<Step>): int {
    if steps == [] then start
    else
      var last := steps[|steps| - 1];
      Clock(start, steps[..|steps| - 1]) + last.delay + (if last.action.DoFailure? then last.action.gap else 0)
  }

  /** What was recorded, when it was, and when the breaker turned half-open. */
  function Recorded(c: Config, start: int, steps: seq<Step>): seq<Event> {
    if steps == [] then []
    else
      var n := |steps| - 1;
      var before, now := Recorded(c, start, steps[..n]), Clock(start, steps[..n]) + steps[n].delay;
      match steps[n].action
      case DoSuccess => before + [Succeeded]
      case DoFailure(_) => before + [Failed(now)]
      case DoReset => before + [WasReset]
      case DoCount => before
      case DoCanExecute =>
        if Run(c, Initial(c, start), steps[..n]).phase == Open && Run(c, Initial(c, start), steps).phase == HalfOpen
        then before + [TurnedHalfOpen]
        else before
  }

  /** The failures in the window that ends at `now`, as places in the record: they are at most the window old, and no
      success and no reset came after them. */
  ghost function InWindow(c: Config, record: seq<Event>, now: int): set<int> {
    CountedFrom(record, now - c.windowSeconds * 10_000_000)
  }

  ghost function CountedFrom(record: seq<Event>, cutoff: int): set<int> {
    set i | 0 <= i < |record| && Counts(record, i, cutoff)
  }

  predicate Counts(record: seq<Event>, i: nat, cutoff: int)
    requires i < |record|
  {
    && record[i].Failed? && record[i].time >= cutoff
    && forall j :: i < j < |record| ==> !record[j].Succeeded? && !record[j].WasReset?
  }

  /** The last `k` records are successes. */
  predicate EndsWith(record: seq<Event>, k: int) {
    k <= |record| && forall i :: |record| - k <= i < |record| && 0 <= i ==> record[i].Succeeded?
  }

  ghost predicate TooMany(c: Config, record: seq<Event>, now: int) { |InWindow(c, record, now)| >= c.failureThreshold }

  /** The time of the last failure that opened the breaker, or found it open with too many failures in the window. */
  ghost function LastOpening(c: Config, start: int, steps: seq<Step>): int {
    if steps == [] then 0
    else
      var n := |steps| - 1;
      if steps[n].action.DoFailure? && (Run(c, Initial(c, start), steps[..n]).phase == HalfOpen
                                        || TooMany(c, Recorded(c, start, steps), Clock(start, steps)))
      then Clock(start, steps[..n]) + steps[n].delay
      else LastOpening(c, start, steps[..n])
  }

  // ---------- the counts ----------

  lemma InWindowSnoc(c: Config, record: seq<Event>, e: Event, now: int)
    ensures
      InWindow(c, record + [e], now) ==
        if e.Succeeded? || e.WasReset? then {}
        else if e.Failed? && e.time >= now - c.windowSeconds * 10_000_000 then InWindow(c, record, now) + {|record|}
        else InWindow(c, record, now)
  {
    var more, cutoff := record + [e], now - c.windowSeconds * 10_000_000;
    assert more[|record|] == e;
    forall i | 0 <= i < |record|
      ensures Counts(more, i, cutoff) <==> Counts(record, i, cutoff) && !e.Succeeded? && !e.WasReset?
    {
      if Counts(more, i, cutoff) {
        forall j | i < j < |record| ensures !record[j].Succeeded? && !record[j].WasReset? {
          assert more[j] == record[j];
        }
      }
    }
  }

  /** The filtered failures are as many as there are in the window. */
  lemma {:induction false} CountIs(c: Config, record: seq<Event>, now: int)
    ensures CountAt(c, record, now) == |InWindow(c, record, now)|
    decreases |record|
  {
    if record != [] {
      var before, e := record[..|record| - 1], record[|record| - 1];
      CountIs(c, before, now);
      assert record == before + [e];
      HistorySnoc(before, e);
      InWindowSnoc(c, before, e, now);
      if e.Failed? {
        FromSnoc(FailuresSince(before), now - Window(c), e.time);
        assert |before| !in InWindow(c, before, now);
      }
    }
  }

  lemma {:induction false} StreakIs(record: seq<Event>, k: int)
    ensures Streak(record) >= k <==> EndsWith(record, k)
    decreases |record|
  {
    if record != [] && k > 0 {
      var before, e := record[..|record| - 1], record[|record| - 1];
      assert record == before + [e];
      if e.Succeeded? {
        StreakIs(before, k - 1);
        if EndsWith(before, k - 1) {
          assert EndsWith(record, k);
        }
        if EndsWith(record, k) {
          forall i | |before| - (k - 1) <= i < |before| && 0 <= i ensures before[i].Succeeded? {
            assert record[i] == before[i];
          }
        }
      }
    }
  }

  // ---------- the fields of the breaker ----------

  lemma {:induction false} RunSnoc(c: Config, s: State, steps: seq<Step>, last: Step)
    ensures Run(c, s, steps + [last]) == Apply(c, Run(c, s, steps), last)
    decreases |steps|
  {
    if steps == [] {
      assert [last][1..] == [] && steps + [last] == [last];
    } else {
      assert (steps + [last])[1..] == steps[1..] + [last];
      RunSnoc(c, Apply(c, s, steps[0]), steps[1..], last);
    }
  }

  ghost predicate Tells(c: Config, start: int, steps: seq<Step>) {
    var s := Run(c, Initial(c, start), steps);
    && s.now == Clock(start, steps)
    && s.history == Recorded(c, start, steps)
    && s.openedTime == LastOpening(c, start, steps)
  }

  function EventsOf(s: State, action: Action, now: int, t: State): seq<Event> {
    match action
    case DoSuccess => [Succeeded]
    case DoFailure(_) => [Failed(now)]
    case DoReset => [WasReset]
    case DoCount => []
    case DoCanExecute => if s.phase == Open && t.phase == HalfOpen then [TurnedHalfOpen] else []
  }

  function Gap(action: Action): nat { if action.DoFailure? then action.gap else 0 }

  /** What an action at time `now` does to the fields other than the phase. */
  ghost predicate Stamps(c: Config, s: State, action: Action, now: int, t: State) {
    && t.now == now + Gap(action)
    && t.history == s.history + EventsOf(s, action, now, t)
    && t.openedTime ==
         (if action.DoFailure? && (s.phase == HalfOpen || TooMany(c, t.history, t.now)) then now else s.openedTime)
    && t.openedAt == if s.phase != Open && t.phase == Open then now else s.openedAt
  }

  /** What it does to the phase. */
  ghost predicate Moves(c: Config, s: State, action: Action, now: int, t: State) {
    t.phase == match s.phase
      case Closed => if action.DoFailure? && TooMany(c, t.history, t.now) then Open else Closed
      case Open =>
        if action.DoReset? then Closed
        else if action.DoCanExecute? && now - s.openedTime >= c.recoverySeconds * 10_000_000 then HalfOpen
        else Open
      case HalfOpen =>
        if action.DoReset? || (action.DoSuccess? && EndsWith(t.history, c.successThreshold)) then Closed
        else if action.DoFailure? then Open
        else HalfOpen
  }

  lemma FailureCounts(c: Config, s: State, gap: nat)
    requires Inv(c, s)
    ensures var t := RecordFailure(c, s, gap); |t.failures| >= c.failureThreshold <==> TooMany(c, t.history, t.now)
  {
    var t := RecordFailure(c, s, gap);
    FailureQueue(c, s, gap);
    FailureFields(c, s, gap);
    CountIs(c, t.history, t.now);
    hide RecordFailure, InWindow;
  }

  lemma FailureMoves(c: Config, s: State, gap: nat)
    requires Inv(c, s)
    ensures Stamps(c, s, DoFailure(gap), s.now, RecordFailure(c, s, gap))
    ensures Moves(c, s, DoFailure(gap), s.now, RecordFailure(c, s, gap))
  {
    FailureCounts(c, s, gap);
    hide TooMany, Inv, Prune, EndsWith;
  }

  lemma SuccessStreak(c: Config, s: State)
    requires Inv(c, s)
    ensures s.consecutiveSuccesses + 1 == Streak(s.history + [Succeeded])
  {
    HistorySnoc(s.history, Succeeded);
    hide QueueOk, Streak;
  }

  lemma SuccessMoves(c: Config, s: State)
    requires Inv(c, s)
    ensures Stamps(c, s, DoSuccess, s.now, RecordSuccess(c, s)) && Moves(c, s, DoSuccess, s.now, RecordSuccess(c, s))
  {
    hide Inv, EndsWith, TooMany, Streak;
    SuccessStreak(c, s);
    StreakIs(RecordSuccess(c, s).history, c.successThreshold);
  }

  lemma OtherMoves(c: Config, s: State, action: Action)
    requires !action.DoFailure? && !action.DoSuccess?
    ensures
      var t := Apply(c, s, Step(0, action));
      Stamps(c, s, action, s.now, t) && Moves(c, s, action, s.now, t)
  {
    hide EndsWith, TooMany, Prune;
  }

  lemma StampsWaited(c: Config, s: State, step: Step, t: State)
    ensures
      var s', now := Wait(s, step.delay), s.now + step.delay;
      && (Stamps(c, s', step.action, now, t) <==> Stamps(c, s, step.action, now, t))
      && (Moves(c, s', step.action, now, t) <==> Moves(c, s, step.action, now, t))
  {
    hide EndsWith, TooMany;
  }

  lemma FieldsStep(c: Config, s: State, step: Step)
    requires Inv(c, s) && c.failureThreshold >= 1
    ensures Stamps(c, s, step.action, s.now + step.delay, Apply(c, s, step))
    ensures Moves(c, s, step.action, s.now + step.delay, Apply(c, s, step))
  {
    var s' := Wait(s, step.delay);
    WaitInv(c, s, step.delay);
    hide Inv, Stamps, Moves, RecordFailure, RecordSuccess, CanExecute, FailureCount, Reset;
    assert s'.now == s.now + step.delay && s'.phase == s.phase;
    StampsWaited(c, s, step, Apply(c, s, step));
    match step.action {
      case DoFailure(gap) => FailureMoves(c, s', gap);
      case DoSuccess => SuccessMoves(c, s');
      case _ =>
        OtherMoves(c, s', step.action);
        assert Apply(c, s, step) == Apply(c, s', Step(0, step.action));
    }
  }

  lemma HistoryMore(c: Config, start: int, steps: seq<Step>, last: Step)
    ensures
      var s, t := Run(c, Initial(c, start), steps), Run(c, Initial(c, start), steps + [last]);
      var now := Clock(start, steps) + last.delay;
      && Clock(start, steps + [last]) == now + Gap(last.action)
      && Recorded(c, start, steps + [last]) == Recorded(c, start, steps) + EventsOf(s, last.action, now, t)
      && LastOpening(c, start, steps + [last]) ==
           var record := Recorded(c, start, steps + [last]);
           if last.action.DoFailure? && (s.phase == HalfOpen || TooMany(c, record, now + Gap(last.action))) then now
           else LastOpening(c, start, steps)
  {
    hide Run, TooMany;
    assert (steps + [last])[..|steps|] == steps;
    assert Recorded(c, start, steps) + [] == Recorded(c, start, steps);
  }

  lemma TellsStep(c: Config, start: int, steps: seq<Step>, last: Step)
    requires Tells(c, start, steps) && c.failureThreshold >= 1
    ensures Tells(c, start, steps + [last])
  {
    RunInv(c, Initial(c, start), steps);
    RunSnoc(c, Initial(c, start), steps, last);
    FieldsStep(c, Run(c, Initial(c, start), steps), last);
    HistoryMore(c, start, steps, last);
    hide Run, Apply, Inv, TooMany, Moves, Clock, Recorded, LastOpening, EventsOf, Wait;
  }

  lemma {:induction false} RunTells(c: Config, start: int, steps: seq<Step>)
    requires c.failureThreshold >= 1
    ensures Tells(c, start, steps)
    decreases |steps|
  {
    if steps != [] {
      var before, last := steps[..|steps| - 1], steps[|steps| - 1];
      RunTells(c, start, before);
      TellsStep(c, start, before, last);
      assert steps == before + [last];
    }
  }

  // ---------- which calls are let through ----------

  /** After any run: a closed or half-open breaker lets every call through, and an open one exactly when its recovery
      time has passed since the failure that opened it; it is half-open from then on. */
  lemma LetsThroughIff(c: Config, start: int, steps: seq<Step>, delay: nat)
    requires c.failureThreshold >= 1
    ensures
      var s := Run(c, Initial(c, start), steps);
      var (t, yes) := CanExecute(c, Wait(s, delay));
      && (yes <==>
            || s.phase != Open
            || Clock(start, steps) + delay - LastOpening(c, start, steps) >= c.recoverySeconds * 10_000_000)
      && t.phase == (if s.phase == Open && yes then HalfOpen else s.phase)
      && t.failures == s.failures
  {
    RunTells(c, start, steps);
    hide Run;
  }

  /** `openedAt` is the time of the last turn to open. */
  lemma OpenedAtIs(c: Config, start: int, steps: seq<Step>, last: Step)
    requires c.failureThreshold >= 1
    ensures
      var s, t := Run(c, Initial(c, start), steps), Run(c, Initial(c, start), steps + [last]);
      t.openedAt == if s.phase != Open && t.phase == Open then Clock(start, steps) + last.delay else s.openedAt
  {
    RunInv(c, Initial(c, start), steps);
    RunTells(c, start, steps);
    RunSnoc(c, Initial(c, start), steps, last);
    FieldsStep(c, Run(c, Initial(c, start), steps), last);
    hide Run, Apply, Inv, Moves, TooMany, Clock, EventsOf;
  }

  /** After any run, what the next step does to the phase. A closed breaker opens exactly by a failure that makes
      failureThreshold of them in the window; an open one stays open, whatever succeeds or fails, until it is asked late
      enough or reset; a half-open one opens by any failure and closes by the success that makes successThreshold of
      them in a row since it turned half-open. */
  lemma PhasesChange(c: Config, start: int, steps: seq<Step>, last: Step)
    requires c.failureThreshold >= 1
    ensures
      var s, t := Run(c, Initial(c, start), steps), Run(c, Initial(c, start), steps + [last]);
      var record, now := Recorded(c, start, steps + [last]), Clock(start, steps + [last]);
      t.phase == match s.phase
        case Closed =>
          if last.action.DoFailure? && |InWindow(c, record, now)| >= c.failureThreshold then Open else Closed
        case Open =>
          var due := now - LastOpening(c, start, steps) >= c.recoverySeconds * 10_000_000;
          if last.action.DoReset? then Closed else if last.action.DoCanExecute? && due then HalfOpen else Open
        case HalfOpen =>
          if last.action.DoReset? || (last.action.DoSuccess? && EndsWith(record, c.successThreshold)) then Closed
          else if last.action.DoFailure? then Open
          else HalfOpen
  {
    RunInv(c, Initial(c, start), steps);
    RunTells(c, start, steps);
    RunTells(c, start, steps + [last]);
    RunSnoc(c, Initial(c, start), steps, last);
    HistoryMore(c, start, steps, last);
    FieldsStep(c, Run(c, Initial(c, start), steps), last);
    hide Run, Apply, Inv, InWindow, EndsWith, Recorded, LastOpening, Stamps, Clock, EventsOf;
  }

  // ---------- recovery ----------

  /** A half-open breaker under successes only. */
  lemma {:induction false} Succeeding(c: Config, s: State, more: seq<Step>)
    requires s.phase == HalfOpen && s.consecutiveSuccesses == 0 && forall step <- more :: step.action.DoSuccess?
    ensures
      var t := Run(c, s, more);
      && t.consecutiveSuccesses == |more|
      && t.phase == if more != [] && |more| >= c.successThreshold then Closed else HalfOpen
    decreases |more|
  {
    if more != [] {
      var before, last := more[..|more| - 1], more[|more| - 1];
      assert forall step <- before :: step in more;
      assert last in more && more == before + [last];
      Succeeding(c, s, before);
      RunSnoc(c, s, before, last);
    }
  }

  lemma {:induction false} RunAppend(c: Config, s: State, a: seq<Step>, b: seq<Step>)
    ensures Run(c, s, a + b) == Run(c, Run(c, s, a), b)
    decreases |a|
  {
    if a == [] {
      assert a + b == b;
    } else {
      assert (a + b)[1..] == a[1..] + b;
      RunAppend(c, Apply(c, s, a[0]), a[1..], b);
    }
  }

  /** An open breaker recovers: asked after its recovery time it lets the call through, and calls that succeed close it
      as soon as there are successThreshold of them, at whatever times they come, and not before. */
  lemma Recovers(c: Config, start: int, steps: seq<Step>, delay: nat, more: seq<Step>)
    requires c.failureThreshold >= 1 && Run(c, Initial(c, start), steps).phase == Open
    requires Clock(start, steps) + delay - LastOpening(c, start, steps) >= c.recoverySeconds * 10_000_000
    requires forall step <- more :: step.action.DoSuccess?
    ensures
      Run(c, Initial(c, start), steps + [Step(delay, DoCanExecute)] + more).phase ==
        if more != [] && |more| >= c.successThreshold then Closed else HalfOpen
  {
    var asked := Step(delay, DoCanExecute);
    RunTells(c, start, steps);
    RunSnoc(c, Initial(c, start), steps, asked);
    RunAppend(c, Initial(c, start), steps + [asked], more);
    hide Run;
    Succeeding(c, Apply(c, Run(c, Initial(c, start), steps), asked), more);
  }
}
