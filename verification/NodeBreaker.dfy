/** The circuit breaker of node/src/circuit.js. */
module NodeBreaker {
  // Calls stay in flight while the breaker changes state, so a call may complete in a later epoch than the one
  // it was admitted in.

  import opened Wrappers

  datatype Config = Config(failureThreshold: int, halfOpenMaxCalls: int, successThreshold: int)

  /** The constructor's `option || default`, for positive options. */
  predicate ValidConfig(c: Config) {
    c.failureThreshold >= 1 && c.halfOpenMaxCalls >= 1 && c.successThreshold >= 1
  }

  datatype Phase = Closed | Open | HalfOpen

  /** `handle` is the stored timer handle, which is kept after the timer went off; `timers` are the timers
      that are armed. `inFlight` maps each call under way to the half-open epoch it was admitted in, or to
      0 when it was admitted by a closed breaker; `epoch` counts the half-open epochs. */
  datatype State = State(
    phase: Phase,
    failures: nat,
    successes: nat,
    halfOpenCalls: nat,
    handle: Option<nat>,
    timers: set<nat>,
    nextTimer: nat,
    inFlight: map<nat, nat>,
    nextCall: nat,
    epoch: nat)

  const INITIAL := State(Closed, 0, 0, 0, None, {}, 0, map[], 0, 0)

  predicate AllowsRequests(c: Config, s: State) {
    s.phase == Closed || (s.phase == HalfOpen && s.halfOpenCalls < c.halfOpenMaxCalls)
  }

  function ToOpen(s: State): State {
    if s.phase == Open then s
    else s.(phase := Open, handle := Some(s.nextTimer), timers := s.timers + {s.nextTimer}, nextTimer := s.nextTimer + 1)
  }

  function ToHalfOpen(s: State): State {
    if s.phase != Open then s
    else s.(phase := HalfOpen, halfOpenCalls := 0, successes := 0, epoch := s.epoch + 1)
  }

  function ToClosed(s: State): State {
    s.(timers := if s.handle.Some? then s.timers - {s.handle.value} else s.timers, handle := None,
       phase := Closed, failures := 0, successes := 0, halfOpenCalls := 0)
  }

  function OnSuccess(c: Config, s: State): State {
    if s.phase == HalfOpen then
      var s' := s.(successes := s.successes + 1);
      if s'.successes >= c.successThreshold then ToClosed(s') else s'
    else s.(failures := 0)
  }

  function OnFailure(c: Config, s: State, retryable: bool): State {
    if !retryable then s
    else
      var s' := s.(failures := s.failures + 1, successes := 0);
      if s'.phase == HalfOpen || s'.failures >= c.failureThreshold then ToOpen(s') else s'
  }

  /** The part of `execute` before it awaits the operation. */
  function Admit(c: Config, s: State): State {
    if !AllowsRequests(c, s) then s
    else
      var trial := s.phase == HalfOpen;
      s.(halfOpenCalls := if trial then s.halfOpenCalls + 1 else s.halfOpenCalls,
         inFlight := s.inFlight[s.nextCall := if trial then s.epoch else 0],
         nextCall := s.nextCall + 1)
  }

  function Land(s: State, call: nat): State {
    s.(inFlight := s.inFlight - {call})
  }

  function Fire(s: State, timer: nat): State {
    ToHalfOpen(s.(timers := s.timers - {timer}))
  }

  datatype Step =
    | DoAdmit
    | DoSucceed(call: nat)
    | DoFail(call: nat, retryable: bool)
    | DoTimer(timer: nat)
    | DoForceOpen
    | DoForceClose

  function Apply(c: Config, s: State, step: Step): State {
    match step
    case DoAdmit => Admit(c, s)
    case DoSucceed(call) => if call in s.inFlight then OnSuccess(c, Land(s, call)) else s
    case DoFail(call, retryable) => if call in s.inFlight then OnFailure(c, Land(s, call), retryable) else s
    case DoTimer(timer) => if timer in s.timers then Fire(s, timer) else s
    case DoForceOpen => ToOpen(s)
    case DoForceClose => ToClosed(s)
  }

  function Run(c: Config, s: State, steps: seq<Step>): State
    decreases |steps|
  {
    if steps == [] then s else Run(c, Apply(c, s, steps[0]), steps[1..])
  }

  // ---------- the class ----------

  class CircuitBreaker {
    const config: Config
    var phase: Phase
    var failures: nat
    var successes: nat
    var halfOpenCalls: nat
    var handle: Option<nat>
    var timers: set<nat>
    var nextTimer: nat
    var inFlight: map<nat, nat>
    var nextCall: nat
    var epoch: nat

    ghost function View(): State
      reads this
    {
      State.State(phase, failures, successes, halfOpenCalls, handle, timers, nextTimer, inFlight, nextCall, epoch)
    }

    constructor (failureThreshold: int, halfOpenMaxCalls: int, successThreshold: int)
      ensures config == Config(if failureThreshold != 0 then failureThreshold else 5,
                               if halfOpenMaxCalls != 0 then halfOpenMaxCalls else 3,
                               if successThreshold != 0 then successThreshold else 2)
      ensures View() == INITIAL
    {
      config := Config(if failureThreshold != 0 then failureThreshold else 5,
                       if halfOpenMaxCalls != 0 then halfOpenMaxCalls else 3,
                       if successThreshold != 0 then successThreshold else 2);
      phase, failures, successes, halfOpenCalls, handle := Closed, 0, 0, 0, None;
      timers, nextTimer, inFlight, nextCall, epoch := {}, 0, map[], 0, 0;
    }

    /** `execute` up to the await: the id of the call, or nothing if the breaker refuses. */
    method Begin() returns (call: Option<nat>)
      modifies this
      ensures View() == Admit(config, old(View()))
      ensures call == if AllowsRequests(config, old(View())) then Some(old(nextCall)) else None
    {
      if !(phase == Closed || (phase == HalfOpen && halfOpenCalls < config.halfOpenMaxCalls)) {
        return None;
      }
      var admittedIn := 0;
      if phase == HalfOpen {
        halfOpenCalls := halfOpenCalls + 1;
        admittedIn := epoch;
      }
      call := Some(nextCall);
      inFlight := inFlight[nextCall := admittedIn];
      nextCall := nextCall + 1;
    }

    /** `execute` after the await. */
    method Complete(call: nat, ok: bool, retryable: bool)
      requires call in inFlight
      modifies this
      ensures View() == Apply(config, old(View()), if ok then DoSucceed(call) else DoFail(call, retryable))
    {
      inFlight := inFlight - {call};
      if ok {
        RecordSuccess();
      } else {
        RecordFailure(retryable);
      }
    }

    method RecordSuccess()
      modifies this
      ensures View() == OnSuccess(config, old(View()))
    {
      if phase == HalfOpen {
        successes := successes + 1;
        if successes >= config.successThreshold {
          Close();
        }
      } else {
        failures := 0;
      }
    }

    method RecordFailure(retryable: bool)
      modifies this
      ensures View() == OnFailure(config, old(View()), retryable)
    {
      if !retryable {
        return;
      }
      failures := failures + 1;
      successes := 0;
      if phase == HalfOpen {
        Trip();
      } else if failures >= config.failureThreshold {
        Trip();
      }
    }

    method Trip()
      modifies this
      ensures View() == ToOpen(old(View()))
    {
      if phase == Open {
        return;
      }
      phase := Open;
      handle := Some(nextTimer);
      timers := timers + {nextTimer};
      nextTimer := nextTimer + 1;
    }

    method OnTimer(timer: nat)
      requires timer in timers
      modifies this
      ensures View() == Fire(old(View()), timer)
    {
      timers := timers - {timer};
      if phase != Open {
        return;
      }
      phase := HalfOpen;
      halfOpenCalls := 0;
      successes := 0;
      epoch := epoch + 1;
    }

    method Close()
      modifies this
      ensures View() == ToClosed(old(View()))
    {
      if handle.Some? {
        timers := timers - {handle.value};
        handle := None;
      }
      phase := Closed;
      failures := 0;
      successes := 0;
      halfOpenCalls := 0;
    }
  }

  // ---------- invariants over every run ----------

  /** The trial calls of the current epoch that are still in flight. */
  ghost function Trials(inFlight: map<nat, nat>, epoch: nat): set<nat> {
    set call | call in inFlight && inFlight[call] == epoch
  }

  /** One reset timer is armed while the breaker is open, and none otherwise. */
  ghost predicate TimersOk(s: State) {
    && (if s.phase == Open then s.handle.Some? && s.timers == {s.handle.value} else s.timers == {})
    && (s.handle.Some? ==> s.handle.value < s.nextTimer)
  }

  ghost predicate CallsOk(s: State) {
    forall call :: call in s.inFlight ==> call < s.nextCall && s.inFlight[call] <= s.epoch
  }

  ghost predicate Inv(c: Config, s: State) {
    && TimersOk(s) && CallsOk(s)
    && (s.phase == Closed ==> s.failures < c.failureThreshold)
    && (s.phase == HalfOpen ==> s.halfOpenCalls <= c.halfOpenMaxCalls && s.successes < c.successThreshold && s.epoch > 0)
  }

  /** In a half-open epoch, every call admitted is in flight or has been counted as a success. Stale
      successes are counted too, which is why this is an inequality. */
  ghost predicate Accounted(s: State) {
    s.phase == HalfOpen ==> s.halfOpenCalls <= |Trials(s.inFlight, s.epoch)| + s.successes
  }

  lemma ApplyInv(c: Config, s: State, step: Step)
    requires ValidConfig(c) && Inv(c, s)
    ensures Inv(c, Apply(c, s, step))
  {}

  lemma AdmitTrial(inFlight: map<nat, nat>, epoch: nat, call: nat)
    requires call !in inFlight
    ensures |Trials(inFlight[call := epoch], epoch)| == |Trials(inFlight, epoch)| + 1
  {
    assert Trials(inFlight[call := epoch], epoch) == Trials(inFlight, epoch) + {call};
  }

  lemma LandTrial(inFlight: map<nat, nat>, epoch: nat, call: nat)
    ensures |Trials(inFlight, epoch)| <= |Trials(inFlight - {call}, epoch)| + 1
  {
    var rest := Trials(inFlight - {call}, epoch);
    if call in Trials(inFlight, epoch) {
      assert Trials(inFlight, epoch) == rest + {call};
    } else {
      assert Trials(inFlight, epoch) == rest;
    }
  }

  /** Retryable errors only: no step loses track of a trial call. */
  lemma ApplyAccounted(c: Config, s: State, step: Step)
    requires ValidConfig(c) && Inv(c, s) && Accounted(s) && (step.DoFail? ==> step.retryable)
    ensures Accounted(Apply(c, s, step))
  {
    match step {
      case DoAdmit =>
        if s.phase == HalfOpen {
          AdmitTrial(s.inFlight, s.epoch, s.nextCall);
        }
      case DoSucceed(call) => LandTrial(s.inFlight, s.epoch, call);
      case DoFail(call, _) => LandTrial(s.inFlight, s.epoch, call);
      case _ =>
    }
  }

  predicate AllRetryable(steps: seq<Step>) {
    forall i :: 0 <= i < |steps| ==> steps[i].DoFail? ==> steps[i].retryable
  }

  lemma {:induction false} RunInv(c: Config, s: State, steps: seq<Step>)
    requires ValidConfig(c) && Inv(c, s)
    ensures Inv(c, Run(c, s, steps))
    ensures Accounted(s) && AllRetryable(steps) ==> Accounted(Run(c, s, steps))
    decreases |steps|
  {
    if steps != [] {
      ApplyInv(c, s, steps[0]);
      if Accounted(s) && AllRetryable(steps) {
        ApplyAccounted(c, s, steps[0]);
      }
      RunInv(c, Apply(c, s, steps[0]), steps[1..]);
    }
  }

  /** In every run: exactly one armed timer while open and none otherwise; closed means fewer failures than
      the threshold; half-open means fewer successes than the threshold and no more trial calls than allowed. */
  lemma BreakerInvariant(c: Config, steps: seq<Step>)
    requires ValidConfig(c)
    ensures Inv(c, Run(c, INITIAL, steps))
  {
    RunInv(c, INITIAL, steps);
  }

  // ---------- the breaker never wedges ----------

  /** Half-open, refusing requests, and no trial call of this epoch left that could change that. */
  ghost predicate Wedged(c: Config, s: State) {
    s.phase == HalfOpen && !AllowsRequests(c, s) && Trials(s.inFlight, s.epoch) == {}
  }

  ghost predicate WedgesAfter(c: Config, steps: seq<Step>) {
    AllRetryable(steps) && Wedged(c, Run(c, INITIAL, steps))
  }

  /** As long as every error is retryable, the breaker can wedge exactly if it admits fewer trial calls than
      it wants successes -- whatever stale completions arrive. */
  lemma NeverWedgesIff(c: Config)
    requires ValidConfig(c)
    ensures (forall steps :: !WedgesAfter(c, steps)) <==> c.halfOpenMaxCalls >= c.successThreshold
  {
    if c.halfOpenMaxCalls >= c.successThreshold {
      forall steps ensures !WedgesAfter(c, steps) {
        RunInv(c, INITIAL, steps);
      }
    } else {
      var steps := Opening(c.failureThreshold) + [DoTimer(0)] + Trial(c.failureThreshold, c.halfOpenMaxCalls, true);
      OpeningAndTrials(c, c.halfOpenMaxCalls, true);
      assert Wedged(c, Run(c, INITIAL, steps));
      assert WedgesAfter(c, steps);
    }
  }

  /** Errors that are not retryable use up trial calls for nothing: whatever the configuration, enough of
      them wedge the breaker. */
  lemma IgnoredErrorsWedge(c: Config) returns (steps: seq<Step>)
    requires ValidConfig(c)
    ensures Wedged(c, Run(c, INITIAL, steps))
  {
    steps := Opening(c.failureThreshold) + [DoTimer(0)] + Trial(c.failureThreshold, c.halfOpenMaxCalls, false);
    OpeningAndTrials(c, c.halfOpenMaxCalls, false);
  }

  /** A wedged breaker with nothing in flight stays as it is until it is forced. */
  lemma WedgedForGood(c: Config, s: State, step: Step)
    requires Inv(c, s) && Wedged(c, s) && s.inFlight == map[]
    ensures step.DoForceOpen? || step.DoForceClose? || Apply(c, s, step) == s
  {}

  predicate Unforced(steps: seq<Step>) {
    forall i :: 0 <= i < |steps| ==> !steps[i].DoForceOpen? && !steps[i].DoForceClose?
  }

  /** No number of calls, completions and timers helps: after each of them the next call is refused again. */
  lemma {:induction false} WedgedRuns(c: Config, s: State, steps: seq<Step>)
    requires Inv(c, s) && Wedged(c, s) && s.inFlight == map[] && Unforced(steps)
    ensures Run(c, s, steps) == s && !AllowsRequests(c, Run(c, s, steps))
    decreases |steps|
  {
    if steps != [] {
      assert Unforced(steps[1..]);
      WedgedForGood(c, s, steps[0]);
      WedgedRuns(c, s, steps[1..]);
    }
  }

  /** `n` calls in a row, admitted by a closed breaker, that all fail. */
  function Opening(n: nat): seq<Step> {
    if n == 0 then [] else Opening(n - 1) + [DoAdmit, DoFail(n - 1, true)]
  }

  /** `n` trial calls in a row that succeed, or fail with an error that is not retryable. */
  function Trial(first: nat, n: nat, ok: bool): seq<Step> {
    if n == 0 then []
    else Trial(first, n - 1, ok) + [DoAdmit, if ok then DoSucceed(first + n - 1) else DoFail(first + n - 1, false)]
  }

  lemma {:induction false} RunAppend(c: Config, s: State, a: seq<Step>, b: seq<Step>)
    ensures Run(c, s, a + b) == Run(c, Run(c, s, a), b)
    decreases |a|
  {
    if a == [] {
      assert a + b == b;
    } else {
      assert (a + b)[1..] == a[1..] + b;
      RunAppend(c, Apply(c, s, a[0]), a[1..], b);
    }
  }

  lemma RunTwo(c: Config, s: State, x: Step, y: Step)
    ensures Run(c, s, [x, y]) == Apply(c, Apply(c, s, x), y)
  {
    assert [x, y][1..] == [y] && [y][1..] == [];
    assert Run(c, Apply(c, s, x), [y]) == Run(c, Apply(c, Apply(c, s, x), y), []);
  }

  lemma {:induction false} Opens(c: Config, n: nat)
    requires ValidConfig(c) && n <= c.failureThreshold
    ensures
      Run(c, INITIAL, Opening(n)) ==
        if n < c.failureThreshold then INITIAL.(failures := n, nextCall := n)
        else INITIAL.(phase := Open, failures := n, nextCall := n, handle := Some(0), timers := {0}, nextTimer := 1)
    ensures AllRetryable(Opening(n))
  {
    if n > 0 {
      Opens(c, n - 1);
      var s := INITIAL.(failures := n - 1, nextCall := n - 1);
      RunAppend(c, INITIAL, Opening(n - 1), [DoAdmit, DoFail(n - 1, true)]);
      RunTwo(c, s, DoAdmit, DoFail(n - 1, true));
      assert s.inFlight[s.nextCall := 0] - {n - 1} == map[];
    }
  }

  lemma {:induction false} Tries(c: Config, first: nat, n: nat, ok: bool, s: State)
    requires n <= c.halfOpenMaxCalls && (ok ==> n < c.successThreshold)
    requires s.phase == HalfOpen && s.inFlight == map[] && s.nextCall == first && s.halfOpenCalls == s.successes == 0
    ensures
      Run(c, s, Trial(first, n, ok))
        == s.(halfOpenCalls := n, successes := if ok then n else 0, nextCall := first + n)
    ensures ok ==> AllRetryable(Trial(first, n, ok))
  {
    if n > 0 {
      Tries(c, first, n - 1, ok, s);
      var last := if ok then DoSucceed(first + n - 1) else DoFail(first + n - 1, false);
      var t := s.(halfOpenCalls := n - 1, successes := if ok then n - 1 else 0, nextCall := first + n - 1);
      RunAppend(c, s, Trial(first, n - 1, ok), [DoAdmit, last]);
      RunTwo(c, t, DoAdmit, last);
      assert t.inFlight[t.nextCall := t.epoch] - {t.nextCall} == map[];
    }
  }

  lemma OpeningAndTrials(c: Config, n: nat, ok: bool)
    requires ValidConfig(c) && n == c.halfOpenMaxCalls && (ok ==> n < c.successThreshold)
    ensures
      var steps := Opening(c.failureThreshold) + [DoTimer(0)] + Trial(c.failureThreshold, n, ok);
      Wedged(c, Run(c, INITIAL, steps)) && (ok ==> AllRetryable(steps))
  {
    var f := c.failureThreshold;
    Opens(c, f);
    var tripped := Run(c, INITIAL, Opening(f));
    RunAppend(c, INITIAL, Opening(f), [DoTimer(0)]);
    assert [DoTimer(0)][1..] == [];
    var trying := Fire(tripped, 0);
    assert Run(c, tripped, [DoTimer(0)]) == Run(c, trying, []);
    RunAppend(c, INITIAL, Opening(f) + [DoTimer(0)], Trial(f, n, ok));
    Tries(c, f, n, ok, trying);
    assert Trials(map[], trying.epoch) == {};
  }
}
