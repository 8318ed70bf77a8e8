/** The circuit breaker of go/vedadb/circuit.go. */
module GoBreaker {
  // Each admission and each completion of a call is one atomic step. Module `GoBreakerRaces` looks at the single
  // atomic instructions.

  import opened Wrappers

  datatype Config = Config(failureThreshold: int, recoveryTimeout: int, halfOpenMaxCalls: int)

  datatype Phase = Closed | Open | HalfOpen

  /** How a call was let through: by a closed breaker, or as a trial call of a half-open epoch. */
  datatype Ticket = Normal | Trial(epoch: nat)

  /** The first five components are the fields of the breaker. `inFlight` holds the calls under way;
      `issued` counts the trial calls admitted in each half-open epoch; `openedAt` is the time of the last
      opening, forgotten by a reset. */
  datatype State = State(
    phase: Phase,
    failures: int,
    successes: nat,
    halfOpenCalls: int,
    lastFailureTime: int,
    now: int,
    inFlight: map<nat, Ticket>,
    nextCall: nat,
    epoch: nat,
    issued: map<nat, nat>,
    openedAt: Option<int>)

  function Initial(now: int): State {
    State(Closed, 0, 0, 0, 0, now, map[], 0, 0, map[], None)
  }

  function Start(s: State, ticket: Ticket): State {
    var issued := if ticket.Normal? then s.issued
                  else s.issued[ticket.epoch := (if ticket.epoch in s.issued then s.issued[ticket.epoch] else 0) + 1];
    s.(inFlight := s.inFlight[s.nextCall := ticket], nextCall := s.nextCall + 1, issued := issued)
  }

  /** `Call` up to the invocation of the function; the ticket, or nothing when the call is refused. */
  function Admit(c: Config, s: State): (State, Option<Ticket>) {
    match s.phase
    case Closed => (Start(s, Normal), Some(Normal))
    case Open =>
      if s.now - s.lastFailureTime >= c.recoveryTimeout then
        var ticket := Trial(s.epoch + 1);
        (Start(s.(phase := HalfOpen, halfOpenCalls := 0, epoch := s.epoch + 1), ticket), Some(ticket))
      else (s, None)
    case HalfOpen =>
      if s.halfOpenCalls + 1 > c.halfOpenMaxCalls then (s, None)
      else (Start(s.(halfOpenCalls := s.halfOpenCalls + 1), Trial(s.epoch)), Some(Trial(s.epoch)))
  }

  /** The compare-and-swap of `transition`. */
  function Transition(s: State, from: Phase, to: Phase): State {
    if s.phase != from then s
    else s.(phase := to, openedAt := if to == Open then Some(s.now) else s.openedAt)
  }

  function RecordFailure(c: Config, s: State): State {
    var s' := s.(failures := s.failures + 1, lastFailureTime := s.now);
    if s'.failures >= c.failureThreshold then Transition(s', Closed, Open) else s'
  }

  function RecordSuccess(s: State): State {
    s.(failures := 0, successes := s.successes + 1)
  }

  /** What follows the invocation of the function. */
  function Finish(c: Config, s: State, call: nat, ok: bool): State
    requires call in s.inFlight
  {
    var s' := s.(inFlight := s.inFlight - {call});
    var s'' := if s.inFlight[call].Normal? then s' else Transition(s', HalfOpen, if ok then Closed else Open);
    if ok then RecordSuccess(s'') else RecordFailure(c, s'')
  }

  function Reset(s: State): State {
    s.(phase := Closed, failures := 0, successes := 0, halfOpenCalls := 0, openedAt := None)
  }

  datatype Action = DoAdmit | DoFinish(call: nat, ok: bool) | DoReset

  /** An action after a delay: the clock never goes backwards. */
  datatype Step = Step(delay: nat, action: Action)

  function Act(c: Config, s: State, action: Action): State {
    match action
    case DoAdmit => Admit(c, s).0
    case DoFinish(call, ok) => if call in s.inFlight then Finish(c, s, call, ok) else s
    case DoReset => Reset(s)
  }

  function Wait(s: State, delay: nat): State { s.(now := s.now + delay) }

  function Apply(c: Config, s: State, step: Step): State {
    Act(c, Wait(s, step.delay), step.action)
  }

  function Run(c: Config, s: State, steps: seq<Step>): State
    decreases |steps|
  {
    if steps == [] then s else Run(c, Apply(c, s, steps[0]), steps[1..])
  }

  // ---------- the class ----------

  class CircuitBreaker {
    const config: Config
    var phase: Phase
    var failures: int
    var successes: nat
    var halfOpenCalls: int
    var lastFailureTime: int
    var now: int
    var inFlight: map<nat, Ticket>
    var nextCall: nat
    var epoch: nat
    ghost var issued: map<nat, nat>
    ghost var openedAt: Option<int>

    ghost function View(): State
      reads this
    {
      State(phase, failures, successes, halfOpenCalls, lastFailureTime, now, inFlight, nextCall, epoch, issued, openedAt)
    }

    constructor (config: Config, now: int)
      ensures this.config == config && View() == Initial(now)
    {
      this.config := config;
      this.now := now;
      phase, failures, successes, halfOpenCalls, lastFailureTime := Closed, 0, 0, 0, 0;
      inFlight, nextCall, epoch, issued, openedAt := map[], 0, 0, map[], None;
    }

    method Wait(delay: nat)
      modifies this`now
      ensures View() == old(View()).(now := old(now) + delay)
    {
      now := now + delay;
    }

    method Launch(ticket: Ticket)
      modifies this`inFlight, this`nextCall, this`issued
      ensures View() == Start(old(View()), ticket)
    {
      inFlight := inFlight[nextCall := ticket];
      nextCall := nextCall + 1;
      if ticket.Trial? {
        issued := issued[ticket.epoch := (if ticket.epoch in issued then issued[ticket.epoch] else 0) + 1];
      }
    }

    method Begin() returns (ticket: Option<Ticket>)
      modifies this
      ensures (View(), ticket) == Admit(config, old(View()))
    {
      match phase {
        case Open =>
          if now - lastFailureTime >= config.recoveryTimeout {
            var swapped := CompareAndSwap(Open, HalfOpen);
            halfOpenCalls := 0;
            epoch := epoch + 1;
            Launch(Trial(epoch));
            return Some(Trial(epoch));
          }
          return None;
        case HalfOpen =>
          halfOpenCalls := halfOpenCalls + 1;
          if halfOpenCalls > config.halfOpenMaxCalls {
            halfOpenCalls := halfOpenCalls - 1;
            return None;
          }
          Launch(Trial(epoch));
          return Some(Trial(epoch));
        case Closed =>
          Launch(Normal);
          return Some(Normal);
      }
    }

    method CompareAndSwap(from: Phase, to: Phase) returns (swapped: bool)
      modifies this`phase, this`openedAt
      ensures View() == Transition(old(View()), from, to) && swapped == (old(phase) == from)
    {
      swapped := phase == from;
      if swapped {
        phase := to;
        if to == Open {
          openedAt := Some(now);
        }
      }
    }

    method Complete(call: nat, ok: bool)
      requires call in inFlight
      modifies this
      ensures View() == Finish(config, old(View()), call, ok)
    {
      var ticket := inFlight[call];
      inFlight := inFlight - {call};
      if ticket.Trial? {
        var swapped := CompareAndSwap(HalfOpen, if ok then Closed else Open);
      }
      if ok {
        failures := 0;
        successes := successes + 1;
      } else {
        failures := failures + 1;
        lastFailureTime := now;
        if failures >= config.failureThreshold {
          var swapped := CompareAndSwap(Closed, Open);
        }
      }
    }

    method ResetAll()
      modifies this
      ensures View() == Reset(old(View()))
    {
      phase, failures, successes, halfOpenCalls, openedAt := Closed, 0, 0, 0, None;
    }
  }

  // ---------- safety in every run ----------

  ghost function Trials(inFlight: map<nat, Ticket>, epoch: nat): set<nat> {
    set call | call in inFlight && inFlight[call] == Trial(epoch)
  }

  function Most(c: Config): nat { 1 + if c.halfOpenMaxCalls > 0 then c.halfOpenMaxCalls else 0 }

  /** While half-open, every trial call admitted in this epoch is still in flight. */
  ghost predicate TrialsOk(c: Config, s: State) {
    && (forall e :: e in s.issued ==> e <= s.epoch && s.issued[e] <= Most(c))
    && (s.phase == HalfOpen ==>
          s.epoch in s.issued && 0 <= s.halfOpenCalls
          && s.issued[s.epoch] == |Trials(s.inFlight, s.epoch)| == 1 + s.halfOpenCalls)
    && (forall call :: call in s.inFlight ==> call < s.nextCall && (s.inFlight[call].Trial? ==> s.inFlight[call].epoch <= s.epoch))
  }

  ghost predicate TimesOk(c: Config, s: State) {
    && (s.phase == Open ==> s.openedAt.Some? && s.openedAt.value <= s.lastFailureTime <= s.now)
    && (s.phase != Open && s.openedAt.Some? ==> s.now - s.openedAt.value >= c.recoveryTimeout)
  }

  ghost predicate Inv(c: Config, s: State) {
    && TrialsOk(c, s) && TimesOk(c, s)
    && (s.phase == Closed ==> s.failures < c.failureThreshold)
  }

  lemma StartTrials(inFlight: map<nat, Ticket>, call: nat, ticket: Ticket, epoch: nat)
    requires call !in inFlight
    ensures |Trials(inFlight[call := ticket], epoch)| == |Trials(inFlight, epoch)| + (if ticket == Trial(epoch) then 1 else 0)
  {
    var after := Trials(inFlight[call := ticket], epoch);
    if ticket == Trial(epoch) {
      assert after == Trials(inFlight, epoch) + {call};
    } else {
      assert after == Trials(inFlight, epoch);
    }
  }

  lemma AdmitInv(c: Config, s: State)
    requires Inv(c, s)
    ensures Inv(c, Admit(c, s).0)
  {
    match s.phase {
      case Closed => StartTrials(s.inFlight, s.nextCall, Normal, s.epoch);
      case HalfOpen => StartTrials(s.inFlight, s.nextCall, Trial(s.epoch), s.epoch);
      case Open =>
        assert Trials(s.inFlight, s.epoch + 1) == {};
        StartTrials(s.inFlight, s.nextCall, Trial(s.epoch + 1), s.epoch + 1);
    }
  }

  lemma SameTrials(c: Config, s: State, s': State)
    requires TrialsOk(c, s) && (s'.phase == HalfOpen ==> s.phase == HalfOpen)
    requires s'.inFlight == s.inFlight && s'.nextCall == s.nextCall && s'.issued == s.issued && s'.epoch == s.epoch
    requires s'.halfOpenCalls == s.halfOpenCalls
    ensures TrialsOk(c, s')
  {}

  /** A call that is over leaves the books; a trial does once the breaker is no longer half-open. */
  lemma DoneTrials(c: Config, s: State, call: nat)
    requires TrialsOk(c, s) && call in s.inFlight && (s.phase == HalfOpen ==> s.inFlight[call].Normal?)
    ensures TrialsOk(c, s.(inFlight := s.inFlight - {call}))
  {
    if s.phase == HalfOpen {
      assert Trials(s.inFlight - {call}, s.epoch) == Trials(s.inFlight, s.epoch);
    }
  }

  lemma FinishTrials(c: Config, s: State, call: nat, ok: bool)
    requires TrialsOk(c, s) && call in s.inFlight
    ensures TrialsOk(c, Finish(c, s, call, ok))
  {
    var left := s.(phase := Finish(c, s, call, ok).phase);
    SameTrials(c, s, left);
    DoneTrials(c, left, call);
    SameTrials(c, left.(inFlight := s.inFlight - {call}), Finish(c, s, call, ok));
  }

  lemma FinishTimes(c: Config, s: State, call: nat, ok: bool)
    requires TimesOk(c, s) && (s.phase == Closed ==> s.failures < c.failureThreshold)
    requires c.failureThreshold >= 1 && call in s.inFlight
    ensures
      var s' := Finish(c, s, call, ok);
      TimesOk(c, s') && (s'.phase == Closed ==> s'.failures < c.failureThreshold)
  {}

  lemma FinishInv(c: Config, s: State, call: nat, ok: bool)
    requires Inv(c, s) && c.failureThreshold >= 1 && call in s.inFlight
    ensures Inv(c, Finish(c, s, call, ok))
  {
    FinishTrials(c, s, call, ok);
    FinishTimes(c, s, call, ok);
  }

  lemma WaitInv(c: Config, s: State, delay: nat)
    requires Inv(c, s)
    ensures Inv(c, Wait(s, delay))
  {
    SameTrials(c, s, Wait(s, delay));
  }

  lemma ResetInv(c: Config, s: State)
    requires Inv(c, s) && c.failureThreshold >= 1
    ensures Inv(c, Reset(s))
  {}

  lemma ActInv(c: Config, s: State, action: Action)
    requires Inv(c, s) && c.failureThreshold >= 1
    ensures Inv(c, Act(c, s, action))
  {
    match action {
      case DoAdmit => AdmitInv(c, s);
      case DoFinish(call, ok) => if call in s.inFlight { FinishInv(c, s, call, ok); }
      case DoReset => ResetInv(c, s);
    }
  }

  lemma ApplyInv(c: Config, s: State, step: Step)
    requires Inv(c, s) && c.failureThreshold >= 1
    ensures Inv(c, Apply(c, s, step))
  {
    WaitInv(c, s, step.delay);
    ActInv(c, Wait(s, step.delay), step.action);
  }

  lemma {:induction false} RunInv(c: Config, s: State, steps: seq<Step>)
    requires Inv(c, s) && c.failureThreshold >= 1
    ensures Inv(c, Run(c, s, steps))
    decreases |steps|
  {
    if steps != [] {
      ApplyInv(c, s, steps[0]);
      RunInv(c, Apply(c, s, steps[0]), steps[1..]);
    }
  }

  /** In every run: half-open implies that a trial call of this epoch is in flight; no epoch admits more
      than 1 + HalfOpenMaxCalls trial calls; closed implies fewer failures than the threshold. */
  lemma BreakerSafety(c: Config, start: int, steps: seq<Step>)
    requires c.failureThreshold >= 1
    ensures
      var s := Run(c, Initial(start), steps);
      && (s.phase == HalfOpen ==> Trials(s.inFlight, s.epoch) != {})
      && (forall e :: e in s.issued ==> s.issued[e] <= Most(c))
      && (s.phase == Closed ==> s.failures < c.failureThreshold)
  {
    RunInv(c, Initial(start), steps);
  }

  /** No call starts within the recovery timeout of an opening, unless a reset came in between. */
  lemma NoCallDuringRecovery(c: Config, start: int, steps: seq<Step>, delay: nat)
    requires c.failureThreshold >= 1
    ensures
      var s := Run(c, Initial(start), steps);
      var s' := Wait(s, delay);
      Admit(c, s').1.Some? && s.openedAt.Some? ==> s'.now - s.openedAt.value >= c.recoveryTimeout
  {
    RunInv(c, Initial(start), steps);
  }

  ghost predicate ClosedIsHealthy(c: Config, start: int, steps: seq<Step>) {
    var s := Run(c, Initial(start), steps);
    s.phase == Closed ==> s.failures < c.failureThreshold
  }

  /** A threshold below 1 is the only way to be closed with too many failures. */
  lemma ClosedIsHealthyIff(c: Config, start: int)
    ensures (forall steps :: ClosedIsHealthy(c, start, steps)) <==> c.failureThreshold >= 1
  {
    if c.failureThreshold >= 1 {
      forall steps ensures ClosedIsHealthy(c, start, steps) {
        RunInv(c, Initial(start), steps);
      }
    } else {
      assert !ClosedIsHealthy(c, start, []);
    }
  }
}
