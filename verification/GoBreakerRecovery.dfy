/** When the breaker of go/vedadb/circuit.go lets calls through. */
module GoBreakerRecovery {
  // `GoBreaker` proves that no call gets through that must not; here is the other half: which calls are admitted, how
  // the breaker closes again, and that the instructions of `GoBreakerRaces`, run without interruption, do the same.

  import opened GoBreaker
  import opened Wrappers
  import Races = GoBreakerRaces

  // ---------- what the calls of a run tell ----------

  /** The step ends a call that is under way. */
  predicate Ends(s: State, step: Step, ok: bool) {
    step.action.DoFinish? && step.action.call in s.inFlight && step.action.ok == ok
  }

  /** How many calls have failed since the last one that succeeded, or the last reset. */
  function FailuresInARow(c: Config, start: int, steps: seq<Step>): nat {
    if steps == [] then 0
    else
      var n := |steps| - 1;
      var s, step := Run(c, Initial(start), steps[..n]), steps[n];
      if step.action.DoReset? || Ends(s, step, true) then 0
      else FailuresInARow(c, start, steps[..n]) + (if Ends(s, step, false) then 1 else 0)
  }

  /** The time of the last failure, if there was one. */
  function LastFailure(c: Config, start: int, steps: seq<Step>): Option<int> {
    if steps == [] then None
    else
      var n := |steps| - 1;
      var s, step := Run(c, Initial(start), steps[..n]), steps[n];
      if Ends(s, step, false) then Some(s.now + step.delay) else LastFailure(c, start, steps[..n])
  }

  /** The time after the run. */
  function Clock(start: int, steps: seq<Step>): int {
    if steps == [] then start else Clock(start, steps[..|steps| - 1]) + steps[|steps| - 1].delay
  }

  lemma {:induction false} RunSnoc(c: Config, s: State, steps: seq<Step>, last: Step)
    ensures Run(c, s, steps + [last]) == Apply(c, Run(c, s, steps), last)
    decreases |steps|
  {
    if steps == [] {
      assert [last][1..] == [] && steps + [last] == [last];
    } else {
      assert (steps + [last])[1..] == steps[1..] + [last];
      RunSnoc(c, Apply(c, s, steps[0]), steps[1..], last);
    }
  }

  /** The fields of the breaker are what the calls of the run tell. */
  ghost predicate Tells(c: Config, start: int, steps: seq<Step>) {
    var s := Run(c, Initial(start), steps);
    && s.failures == FailuresInARow(c, start, steps)
    && s.now == Clock(start, steps)
    && (LastFailure(c, start, steps).Some? ==> s.lastFailureTime == LastFailure(c, start, steps).value)
    && (s.phase == Open ==> LastFailure(c, start, steps).Some?)
  }

  lemma HistorySnoc(c: Config, start: int, steps: seq<Step>, last: Step)
    ensures
      var s := Run(c, Initial(start), steps);
      && FailuresInARow(c, start, steps + [last]) ==
           (if last.action.DoReset? || Ends(s, last, true) then 0
            else FailuresInARow(c, start, steps) + (if Ends(s, last, false) then 1 else 0))
      && LastFailure(c, start, steps + [last]) ==
           (if Ends(s, last, false) then Some(s.now + last.delay) else LastFailure(c, start, steps))
      && Clock(start, steps + [last]) == Clock(start, steps) + last.delay
  {
    hide Run;
    assert (steps + [last])[..|steps|] == steps;
  }

  /** What a step does to the fields. */
  lemma FieldsStep(c: Config, s: State, step: Step)
    ensures
      var t := Apply(c, s, step);
      && t.failures == (if step.action.DoReset? || Ends(s, step, true) then 0
                        else s.failures + (if Ends(s, step, false) then 1 else 0))
      && t.lastFailureTime == (if Ends(s, step, false) then s.now + step.delay else s.lastFailureTime)
      && t.now == s.now + step.delay
      && (t.phase == Open ==> s.phase == Open || Ends(s, step, false))
  {}

  lemma TellsStep(c: Config, start: int, steps: seq<Step>, last: Step)
    requires Tells(c, start, steps)
    ensures Tells(c, start, steps + [last])
  {
    hide Run, Apply, FailuresInARow, LastFailure, Clock, Ends;
    HistorySnoc(c, start, steps, last);
    FieldsStep(c, Run(c, Initial(start), steps), last);
    RunSnoc(c, Initial(start), steps, last);
  }

  lemma {:induction false} RunTells(c: Config, start: int, steps: seq<Step>)
    ensures Tells(c, start, steps)
    decreases |steps|
  {
    if steps == [] {
    } else {
      var before, last := steps[..|steps| - 1], steps[|steps| - 1];
      RunTells(c, start, before);
      TellsStep(c, start, before, last);
      assert steps == before + [last];
    }
  }

  // ---------- which calls are admitted ----------

  /** The last failure is at least RecoveryTimeout old. */
  predicate IsDue(c: Config, start: int, steps: seq<Step>, delay: nat) {
    && LastFailure(c, start, steps).Some?
    && Clock(start, steps) + delay - LastFailure(c, start, steps).value >= c.recoveryTimeout
  }

  /** The trial calls of the present half-open epoch that are under way. */
  ghost function Trying(s: State): nat { |Trials(s.inFlight, s.epoch)| }

  /** After any run: a closed breaker lets every call through; an open one exactly when the last failure is at least
      RecoveryTimeout old, and then as a trial call; a half-open one exactly as long as no more than HalfOpenMaxCalls
      trial calls are under way. A call that is refused changes nothing. */
  lemma AdmitsIff(c: Config, start: int, steps: seq<Step>, delay: nat)
    requires c.failureThreshold >= 1
    ensures
      var s := Wait(Run(c, Initial(start), steps), delay);
      var (t, ticket) := Admit(c, s);
      && (ticket.None? ==> t == s)
      && (ticket.Some? ==> t.inFlight == s.inFlight[s.nextCall := ticket.value] && s.nextCall !in s.inFlight)
      && (s.phase == Closed ==> ticket == Some(Normal) && t.phase == Closed)
      && (s.phase == Open ==>
            && (ticket.Some? <==> IsDue(c, start, steps, delay))
            && (ticket.Some? ==> t.phase == HalfOpen && ticket == Some(Trial(t.epoch)) && Trying(t) == 1))
      && (s.phase == HalfOpen ==>
            && (ticket.Some? <==> Trying(s) <= (if c.halfOpenMaxCalls > 0 then c.halfOpenMaxCalls else 0))
            && (ticket.Some? ==> t.phase == HalfOpen && ticket == Some(Trial(s.epoch)) && Trying(t) == Trying(s) + 1))
  {
    RunInv(c, Initial(start), steps);
    RunTells(c, start, steps);
    var s := Wait(Run(c, Initial(start), steps), delay);
    WaitInv(c, Run(c, Initial(start), steps), delay);
    AdmitsTrials(c, s);
  }

  lemma AdmitsTrials(c: Config, s: State)
    requires Inv(c, s)
    ensures s.phase == HalfOpen ==> Trying(s) == 1 + s.halfOpenCalls
    ensures
      var (t, ticket) := Admit(c, s);
      s.phase != Closed && ticket.Some? ==> Trying(t) == if s.phase == Open then 1 else Trying(s) + 1
    ensures s.nextCall !in s.inFlight
  {
    if s.phase == Open {
      assert Trials(s.inFlight, s.epoch + 1) == {};
      StartTrials(s.inFlight, s.nextCall, Trial(s.epoch + 1), s.epoch + 1);
    } else {
      StartTrials(s.inFlight, s.nextCall, Trial(s.epoch), s.epoch);
    }
  }

  /** `n` calls arrive one after the other while none ends; how many are admitted. */
  function Crowd(c: Config, s: State, n: nat): (State, nat) {
    if n == 0 then (s, 0)
    else
      var (t, admitted) := Crowd(c, s, n - 1);
      (Admit(c, t).0, admitted + (if Admit(c, t).1.Some? then 1 else 0))
  }

  predicate FilledUp(c: Config, t: State, n: nat, admitted: nat) {
    n > 0 ==> admitted == (if n < Most(c) then n else Most(c)) && t.phase == HalfOpen
  }

  lemma CrowdStep(c: Config, t: State, n: nat, admitted: nat)
    requires Inv(c, t) && FilledUp(c, t, n, admitted) && n > 0 && Trying(t) == admitted
    ensures
      var (t', ticket) := Admit(c, t);
      var more := admitted + (if ticket.Some? then 1 else 0);
      Inv(c, t') && FilledUp(c, t', n + 1, more) && Trying(t') == more
  {
    AdmitInv(c, t);
    AdmitsTrials(c, t);
    hide Inv;
  }

  lemma CrowdOpens(c: Config, s: State)
    requires Inv(c, s) && s.phase == Open && s.now - s.lastFailureTime >= c.recoveryTimeout
    ensures
      var (t, ticket) := Admit(c, s);
      ticket.Some? && Inv(c, t) && FilledUp(c, t, 1, 1) && Trying(t) == 1
  {
    AdmitInv(c, s);
    AdmitsTrials(c, s);
  }

  lemma {:induction false} CrowdFills(c: Config, s: State, n: nat)
    requires Inv(c, s) && s.phase == Open && s.now - s.lastFailureTime >= c.recoveryTimeout && n > 0
    ensures var (t, admitted) := Crowd(c, s, n); Inv(c, t) && FilledUp(c, t, n, admitted) && Trying(t) == admitted
  {
    if n == 1 {
      CrowdOpens(c, s);
      assert Crowd(c, s, 0) == (s, 0);
    } else {
      hide Inv, FilledUp, Admit, Trying;
      var (t, admitted) := Crowd(c, s, n - 1);
      CrowdFills(c, s, n - 1);
      CrowdStep(c, t, n - 1, admitted);
    }
  }

  /** After any run that leaves the breaker open for at least RecoveryTimeout: of any number of calls that arrive before
      the first of them ends, exactly the first 1 + HalfOpenMaxCalls are admitted. */
  lemma TrialsFillUp(c: Config, start: int, steps: seq<Step>, delay: nat, n: nat)
    requires c.failureThreshold >= 1 && Run(c, Initial(start), steps).phase == Open
    requires IsDue(c, start, steps, delay)
    ensures Crowd(c, Wait(Run(c, Initial(start), steps), delay), n).1 == if n < Most(c) then n else Most(c)
  {
    RunInv(c, Initial(start), steps);
    RunTells(c, start, steps);
    WaitInv(c, Run(c, Initial(start), steps), delay);
    if n > 0 {
      CrowdFills(c, Wait(Run(c, Initial(start), steps), delay), n);
    }
  }

  // ---------- how the breaker closes and opens ----------

  /** After any run, what the end of a call does: the first trial call to end decides a half-open breaker, closing it
      with no failures or opening it; a closed breaker opens exactly when FailureThreshold failures have come without a
      success or reset in between; and nothing else changes the phase. */
  lemma EndsDecide(c: Config, start: int, steps: seq<Step>, last: Step)
    requires last.action.DoFinish? && last.action.call in Run(c, Initial(start), steps).inFlight
    ensures
      var s, t := Run(c, Initial(start), steps), Run(c, Initial(start), steps + [last]);
      var call, ok := last.action.call, last.action.ok;
      var row := FailuresInARow(c, start, steps + [last]);
      && t.inFlight == s.inFlight - {call} && t.successes == s.successes + (if ok then 1 else 0)
      && row == (if ok then 0 else FailuresInARow(c, start, steps) + 1)
      && (s.phase == HalfOpen && s.inFlight[call].Trial? && ok ==> t.phase == Closed && t.failures == 0)
      && (s.phase == HalfOpen && s.inFlight[call].Trial? && !ok ==> t.phase == Open)
      && (s.phase == HalfOpen && s.inFlight[call].Normal? ==> t.phase == HalfOpen)
      && (s.phase == Open ==> t.phase == Open)
      && (s.phase == Closed ==> t.phase == if !ok && row >= c.failureThreshold then Open else Closed)
  {
    RunTells(c, start, steps);
    RunSnoc(c, Initial(start), steps, last);
    assert (steps + [last])[..|steps|] == steps;
  }

  /** Admissions open nothing, and a reset closes whatever it finds, with no failures. */
  lemma OthersDecide(c: Config, start: int, steps: seq<Step>, last: Step)
    requires !last.action.DoFinish?
    ensures
      var s, t := Run(c, Initial(start), steps), Run(c, Initial(start), steps + [last]);
      && (last.action.DoReset? ==> t.phase == Closed && t.failures == t.successes == 0 && t.inFlight == s.inFlight)
      && (last.action.DoAdmit? ==>
            && t.failures == s.failures && t.successes == s.successes
            && (if s.phase == Open then t.phase != Closed else t.phase == s.phase))
  {
    RunSnoc(c, Initial(start), steps, last);
  }

  /** A closed breaker stays closed as long as fewer than FailureThreshold failures come in a row. */
  lemma {:induction false} StaysClosed(c: Config, start: int, steps: seq<Step>)
    requires forall n :: 0 <= n <= |steps| ==> FailuresInARow(c, start, steps[..n]) < c.failureThreshold
    ensures Run(c, Initial(start), steps).phase == Closed
    decreases |steps|
  {
    if steps != [] {
      var before, last := steps[..|steps| - 1], steps[|steps| - 1];
      assert forall n :: 0 <= n <= |before| ==> before[..n] == steps[..n];
      StaysClosed(c, start, before);
      assert steps == before + [last] && steps[..|steps|] == steps;
      RunSnoc(c, Initial(start), before, last);
      if last.action.DoFinish? && last.action.call in Run(c, Initial(start), before).inFlight {
        EndsDecide(c, start, before, last);
      }
    }
  }

  /** A breaker that is open recovers: once RecoveryTimeout has passed since the last failure, the next call is a trial
      call, and its success, at any later time, closes the breaker with no failures. */
  lemma Recovers(c: Config, start: int, steps: seq<Step>, delay: nat, longer: nat)
    requires c.failureThreshold >= 1 && Run(c, Initial(start), steps).phase == Open
    requires IsDue(c, start, steps, delay)
    ensures
      var s := Run(c, Initial(start), steps);
      var t := Run(c, Initial(start), steps + [Step(delay, DoAdmit)] + [Step(longer, DoFinish(s.nextCall, true))]);
      t.phase == Closed && t.failures == 0 && t.inFlight == s.inFlight
  {
    var s, admit := Run(c, Initial(start), steps), Step(delay, DoAdmit);
    AdmitsIff(c, start, steps, delay);
    RunSnoc(c, Initial(start), steps, admit);
    var trial := Run(c, Initial(start), steps + [admit]);
    assert trial.inFlight == s.inFlight[s.nextCall := Trial(trial.epoch)];
    EndsDecide(c, start, steps + [admit], Step(longer, DoFinish(s.nextCall, true)));
    assert s.inFlight[s.nextCall := Trial(trial.epoch)] - {s.nextCall} == s.inFlight;
  }

  // ---------- the instructions without interruption ----------

  /** One goroutine executes `n` instructions with nothing in between. */
  function Alone(c: Config, m: Races.Memory, p: Races.Point, ok: bool, n: nat): (Races.Memory, Races.Point)
    decreases n
  {
    if n == 0 then (m, p) else var (m', p') := Races.Execute(c, m, p, ok); Alone(c, m', p', ok, n - 1)
  }

  /** The fields of the breaker. */
  predicate SameFields(m: Races.Memory, s: State) {
    && m.phase == s.phase && m.failures == s.failures && m.halfOpenCalls == s.halfOpenCalls
    && m.lastFailureTime == s.lastFailureTime && m.now == s.now && m.openedAt == s.openedAt
  }

  lemma AloneStep(c: Config, m: Races.Memory, p: Races.Point, ok: bool, n: nat)
    requires n > 0
    ensures Alone(c, m, p, ok, n) == var (m', p') := Races.Execute(c, m, p, ok); Alone(c, m', p', ok, n - 1)
  {}

  lemma AloneAdd(c: Config, m: Races.Memory, p: Races.Point, ok: bool, n: nat, k: nat)
    ensures Alone(c, m, p, ok, n + k) == var (m', p') := Alone(c, m, p, ok, n); Alone(c, m', p', ok, k)
    decreases n
  {
    if n > 0 {
      var (m', p') := Races.Execute(c, m, p, ok);
      AloneAdd(c, m', p', ok, n - 1, k);
    }
  }

  /** The instructions of `Call` up to the function, run alone, do what the admission does in one step. */
  lemma CallIsAdmit(c: Config, m: Races.Memory, s: State, ok: bool) returns (n: nat)
    requires SameFields(m, s)
    ensures
      var (m', p) := Alone(c, m, Races.LoadState, ok, n);
      var (t, ticket) := Admit(c, s);
      && SameFields(m', t)
      && p == match ticket
              case None => Races.Done
              case Some(Normal) => Races.InNormal
              case Some(Trial(_)) => Races.InTrial
  {
    AloneStep(c, m, Races.LoadState, ok, 1);
    n := match s.phase
         case Closed => 1
         case Open => if s.now - s.lastFailureTime >= c.recoveryTimeout then 4 else 3
         case HalfOpen => if s.halfOpenCalls + 1 > c.halfOpenMaxCalls then 4 else 3;
    Four(c, m, Races.LoadState, ok);
  }

  lemma Four(c: Config, m: Races.Memory, p: Races.Point, ok: bool)
    ensures
      var (m1, p1) := Races.Execute(c, m, p, ok);
      var (m2, p2) := Races.Execute(c, m1, p1, ok);
      var (m3, p3) := Races.Execute(c, m2, p2, ok);
      var (m4, p4) := Races.Execute(c, m3, p3, ok);
      && Alone(c, m, p, ok, 1) == (m1, p1) && Alone(c, m, p, ok, 2) == (m2, p2)
      && Alone(c, m, p, ok, 3) == (m3, p3) && Alone(c, m, p, ok, 4) == (m4, p4)
  {
    hide Races.Execute;
    var (m1, p1) := Races.Execute(c, m, p, ok);
    var (m2, p2) := Races.Execute(c, m1, p1, ok);
    var (m3, p3) := Races.Execute(c, m2, p2, ok);
    AloneOne(c, m, p, ok);
    AloneOne(c, m1, p1, ok);
    AloneOne(c, m2, p2, ok);
    AloneOne(c, m3, p3, ok);
    AloneAdd(c, m, p, ok, 1, 1);
    AloneAdd(c, m, p, ok, 2, 1);
    AloneAdd(c, m, p, ok, 3, 1);
  }

  lemma AloneOne(c: Config, m: Races.Memory, p: Races.Point, ok: bool)
    ensures Alone(c, m, p, ok, 1) == Races.Execute(c, m, p, ok)
  {
    hide Races.Execute;
  }

  lemma NormalReturns(c: Config, m: Races.Memory, s: State, call: nat, ok: bool) returns (n: nat)
    requires SameFields(m, s) && call in s.inFlight && s.inFlight[call].Normal?
    ensures var (m', p) := Alone(c, m, Races.InNormal, ok, n); SameFields(m', Finish(c, s, call, ok)) && p == Races.Done
  {
    n := if ok then 3 else 4;
    Four(c, m, Races.InNormal, ok);
    hide Alone;
  }

  lemma TrialLeaves(c: Config, m: Races.Memory, ok: bool)
    ensures
      Alone(c, m, Races.InTrial, ok, 2) ==
        (if m.phase != HalfOpen then m else if ok then m.(phase := Closed) else Races.Opened(m),
         if ok then Races.ClearFailures else Races.AddFailure)
  {
    Four(c, m, Races.InTrial, ok);
    hide Alone;
  }

  lemma RecordsAlone(c: Config, m: Races.Memory, s: State, ok: bool) returns (n: nat)
    requires SameFields(m, s)
    ensures
      var (m', p) := Alone(c, m, if ok then Races.ClearFailures else Races.AddFailure, ok, n);
      SameFields(m', if ok then RecordSuccess(s) else RecordFailure(c, s)) && p == Races.Done
  {
    n := if ok then 2 else 3;
    Four(c, m, if ok then Races.ClearFailures else Races.AddFailure, ok);
    hide Alone;
  }

  lemma TrialReturns(c: Config, m: Races.Memory, s: State, call: nat, ok: bool) returns (n: nat)
    requires SameFields(m, s) && call in s.inFlight && s.inFlight[call].Trial?
    ensures var (m', p) := Alone(c, m, Races.InTrial, ok, n); SameFields(m', Finish(c, s, call, ok)) && p == Races.Done
  {
    hide Alone;
    TrialLeaves(c, m, ok);
    var (left, p) := Alone(c, m, Races.InTrial, ok, 2);
    var s' := Transition(s.(inFlight := s.inFlight - {call}), HalfOpen, if ok then Closed else Open);
    var k := RecordsAlone(c, left, s', ok);
    n := 2 + k;
    AloneAdd(c, m, Races.InTrial, ok, 2, k);
  }

  /** The instructions after the function, run alone, do what the completion does in one step. */
  lemma ReturnIsFinish(c: Config, m: Races.Memory, s: State, call: nat, ok: bool) returns (n: nat)
    requires SameFields(m, s) && call in s.inFlight
    ensures
      var (m', p) := Alone(c, m, if s.inFlight[call].Normal? then Races.InNormal else Races.InTrial, ok, n);
      SameFields(m', Finish(c, s, call, ok)) && p == Races.Done
  {
    if s.inFlight[call].Normal? {
      n := NormalReturns(c, m, s, call, ok);
    } else {
      n := TrialReturns(c, m, s, call, ok);
    }
  }

  /** So do the instructions of `Reset`. */
  lemma ResetIsReset(c: Config, m: Races.Memory, s: State, ok: bool)
    requires SameFields(m, s)
    ensures
      var (m', p) := Alone(c, m, Races.ResetState, ok, 3);
      SameFields(m', Reset(s)) && p == Races.Done
  {
    Four(c, m, Races.ResetState, ok);
  }

  /** And so does a tick of the clock. */
  lemma TickIsWait(c: Config, w: Races.World, s: State, delay: nat)
    requires SameFields(w.mem, s)
    ensures SameFields(Races.Apply(c, w, Races.Tick(delay)).mem, Wait(s, delay))
    ensures Races.Apply(c, w, Races.Tick(delay)).at == w.at
  {}
}
