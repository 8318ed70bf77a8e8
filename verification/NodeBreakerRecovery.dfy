/** When the breaker of node/src/circuit.js lets calls through. */
module NodeBreakerRecovery {
  // The phase and the admissions of `NodeBreaker`, read off the calls, timers and forced changes of the run so far.

  import opened NodeBreaker

  // ---------- what a run tells ----------

  /** The step ends a call that is under way, with success or with an error that counts. */
  predicate Succeeds(s: State, step: Step) { step.DoSucceed? && step.call in s.inFlight }
  predicate Fails(s: State, step: Step) { step.DoFail? && step.call in s.inFlight && step.retryable }

  /** How many errors that count have come since the breaker was closed or, while it was not half-open, a call
      succeeded. */
  function FailuresInARow(c: Config, steps: seq<Step>): nat {
    if steps == [] then 0
    else
      var n := |steps| - 1;
      var s, t, step := Run(c, INITIAL, steps[..n]), Run(c, INITIAL, steps), steps[n];
      if step.DoForceClose? || (Succeeds(s, step) && (s.phase != HalfOpen || t.phase == Closed)) then 0
      else FailuresInARow(c, steps[..n]) + (if Fails(s, step) then 1 else 0)
  }

  predicate Turns(s: State, t: State) { s.phase != HalfOpen && t.phase == HalfOpen }

  /** The calls that succeeded, and those that were admitted, since the breaker turned half-open. */
  function SuccessesSince(c: Config, steps: seq<Step>): nat {
    if steps == [] then 0
    else
      var n := |steps| - 1;
      var s, t := Run(c, INITIAL, steps[..n]), Run(c, INITIAL, steps);
      if Turns(s, t) then 0
      else SuccessesSince(c, steps[..n]) + (if s.phase == HalfOpen && Succeeds(s, steps[n]) then 1 else 0)
  }

  function AdmittedSince(c: Config, steps: seq<Step>): nat {
    if steps == [] then 0
    else
      var n := |steps| - 1;
      var s, t := Run(c, INITIAL, steps[..n]), Run(c, INITIAL, steps);
      if Turns(s, t) then 0
      else AdmittedSince(c, steps[..n]) + (if s.phase == HalfOpen && s.nextCall in t.inFlight then 1 else 0)
  }

  lemma {:induction false} RunSnoc(c: Config, s: State, steps: seq<Step>, last: Step)
    ensures Run(c, s, steps + [last]) == Apply(c, Run(c, s, steps), last)
    decreases |steps|
  {
    RunAppend(c, s, steps, [last]);
    assert [last][1..] == [];
  }

  /** The counters are what the run tells. */
  ghost predicate Tells(c: Config, steps: seq<Step>) {
    var s := Run(c, INITIAL, steps);
    && s.failures == FailuresInARow(c, steps)
    && (s.phase == HalfOpen ==> s.successes == SuccessesSince(c, steps) && s.halfOpenCalls == AdmittedSince(c, steps))
  }

  lemma FieldsStep(c: Config, s: State, step: Step)
    requires ValidConfig(c) && Inv(c, s)
    ensures
      var t := Apply(c, s, step);
      && t.failures == (if step.DoForceClose? || (Succeeds(s, step) && (s.phase != HalfOpen || t.phase == Closed)) then 0
                        else s.failures + (if Fails(s, step) then 1 else 0))
      && (t.phase == HalfOpen ==>
            && t.successes == (if Turns(s, t) then 0 else s.successes + (if Succeeds(s, step) then 1 else 0))
            && t.halfOpenCalls == (if Turns(s, t) then 0 else s.halfOpenCalls + (if s.nextCall in t.inFlight then 1 else 0)))
  {}

  lemma {:induction false} RunTells(c: Config, steps: seq<Step>)
    requires ValidConfig(c)
    ensures Tells(c, steps)
    decreases |steps|
  {
    if steps != [] {
      var before, last := steps[..|steps| - 1], steps[|steps| - 1];
      RunTells(c, before);
      RunInv(c, INITIAL, before);
      RunSnoc(c, INITIAL, before, last);
      assert steps == before + [last];
      FieldsStep(c, Run(c, INITIAL, before), last);
      hide Apply, Inv, Run, Succeeds, Fails;
    }
  }

  // ---------- admissions and changes of phase ----------

  /** After any run, a call is admitted exactly if the breaker is closed, or half-open and has admitted fewer than
      halfOpenMaxCalls calls since it turned so. An admission changes no phase and a refusal nothing at all. */
  lemma AdmitsIff(c: Config, steps: seq<Step>)
    requires ValidConfig(c)
    ensures
      var s := Run(c, INITIAL, steps);
      var t := Admit(c, s);
      && s.nextCall !in s.inFlight
      && if s.phase == Closed || (s.phase == HalfOpen && AdmittedSince(c, steps) < c.halfOpenMaxCalls)
         then t.inFlight.Keys == s.inFlight.Keys + {s.nextCall} && t.nextCall == s.nextCall + 1 && t.phase == s.phase
         else t == s
  {
    RunInv(c, INITIAL, steps);
    RunTells(c, steps);
    hide Run;
  }

  /** After any run, what the next step does to the phase. A closed breaker opens when forced, or by the error that makes
      failureThreshold of them in a row; an open one turns half-open when its timer goes off, and one is armed; a
      half-open one opens by the first error that counts and closes with success number successThreshold. */
  lemma PhasesChange(c: Config, steps: seq<Step>, last: Step)
    requires ValidConfig(c)
    ensures
      var s, t := Run(c, INITIAL, steps), Run(c, INITIAL, steps + [last]);
      && t.phase == (match s.phase
           case Closed =>
             if last.DoForceOpen? || (Fails(s, last) && FailuresInARow(c, steps) + 1 >= c.failureThreshold) then Open
             else Closed
           case Open =>
             if last.DoForceClose? then Closed
             else if last.DoTimer? && last.timer in s.timers then HalfOpen
             else Open
           case HalfOpen =>
             if last.DoForceClose? || (Succeeds(s, last) && SuccessesSince(c, steps) + 1 >= c.successThreshold) then Closed
             else if last.DoForceOpen? || Fails(s, last) then Open
             else HalfOpen)
      && (s.phase == Open ==> exists timer :: s.timers == {timer})
      && (last.DoSucceed? || last.DoFail? ==> t.inFlight == s.inFlight - {last.call})
      && t.failures == FailuresInARow(c, steps + [last])
      && (t.phase == Closed && s.phase != Closed ==> t.failures == t.successes == t.halfOpenCalls == 0)
      && (Fails(s, last) ==> t.successes == 0)
  {
    RunInv(c, INITIAL, steps);
    RunTells(c, steps);
    RunTells(c, steps + [last]);
    RunSnoc(c, INITIAL, steps, last);
    hide Run, FailuresInARow;
  }

  // ---------- recovery ----------

  lemma {:induction false} TriesOn(c: Config, s: State, n: nat)
    requires n <= c.halfOpenMaxCalls && n < c.successThreshold && s.nextCall !in s.inFlight
    requires (forall call :: call in s.inFlight ==> call < s.nextCall)
    requires s.phase == HalfOpen && s.halfOpenCalls == s.successes == 0
    ensures
      Run(c, s, Trial(s.nextCall, n, true)) == s.(halfOpenCalls := n, successes := n, nextCall := s.nextCall + n)
  {
    if n > 0 {
      TriesOn(c, s, n - 1);
      var t := s.(halfOpenCalls := n - 1, successes := n - 1, nextCall := s.nextCall + n - 1);
      RunAppend(c, s, Trial(s.nextCall, n - 1, true), [DoAdmit, DoSucceed(t.nextCall)]);
      RunTwo(c, t, DoAdmit, DoSucceed(t.nextCall));
      assert t.inFlight[t.nextCall := t.epoch] - {t.nextCall} == t.inFlight;
    }
  }

  /** An open breaker recovers if it may admit as many trial calls as it wants successes: its timer is armed, and after it
      went off, successThreshold calls in a row that succeed close the breaker, whatever else is under way. */
  lemma Recovers(c: Config, steps: seq<Step>)
    requires ValidConfig(c) && c.halfOpenMaxCalls >= c.successThreshold && Run(c, INITIAL, steps).phase == Open
    ensures
      var s := Run(c, INITIAL, steps);
      && s.handle.Some? && s.handle.value in s.timers
      && var t := Run(c, INITIAL, steps + [DoTimer(s.handle.value)] + Trial(s.nextCall, c.successThreshold, true));
         t.phase == Closed && t.failures == 0 && t.inFlight == s.inFlight
  {
    RunInv(c, INITIAL, steps);
    var s, n := Run(c, INITIAL, steps), c.successThreshold - 1;
    var timer := DoTimer(s.handle.value);
    RunSnoc(c, INITIAL, steps, timer);
    var trying := Run(c, INITIAL, steps + [timer]);
    assert trying == Fire(s, s.handle.value);
    TriesOn(c, trying, n);
    var almost := trying.(halfOpenCalls := n, successes := n, nextCall := s.nextCall + n);
    RunAppend(c, trying, Trial(s.nextCall, n, true), [DoAdmit, DoSucceed(s.nextCall + n)]);
    RunTwo(c, almost, DoAdmit, DoSucceed(s.nextCall + n));
    assert almost.inFlight[almost.nextCall := almost.epoch] - {almost.nextCall} == s.inFlight;
    RunAppend(c, INITIAL, steps + [timer], Trial(s.nextCall, c.successThreshold, true));
  }
}
