/** Schedules of the breaker of go/vedadb/circuit.go. */
module GoBreakerSchedules {
  // Runs from the start that break the bounds of `GoBreakerRaces`. Each keeps every rule but one, for every
  // threshold and every limit on trial calls: the rules are enough for the bounds, and none of them follows from the
  // others.

  import opened Wrappers
  import opened GoBreakerRaces

  type Config = GoBreaker.Config

  /** The steps lead to the world and keep every rule but one. */
  ghost predicate Leads(c: Config, now: int, but: Rule, steps: seq<Step>, w: World) {
    w == Run(c, Start(now), steps) && Keeps(c, Start(now), steps, ALL_RULES - {but})
  }

  ghost predicate ObeysBut(c: Config, w: World, step: Step, but: Rule) {
    && (but == StoreAfterSwap || Obeys(c, w, step, StoreAfterSwap))
    && (but == NoCountPending || Obeys(c, w, step, NoCountPending))
    && (but == ResetAtRest || Obeys(c, w, step, ResetAtRest))
    && (but == ReadAfterStore || Obeys(c, w, step, ReadAfterStore))
    && (but == NoOldComparison || Obeys(c, w, step, NoOldComparison))
    && (but == NoLateTrial || Obeys(c, w, step, NoLateTrial))
    && (but == OpenAtFailure || Obeys(c, w, step, OpenAtFailure))
  }

  lemma Do(c: Config, now: int, but: Rule, steps: seq<Step>, w: World, step: Step) returns (more: seq<Step>, w': World)
    requires Leads(c, now, but, steps, w) && ObeysBut(c, w, step, but)
    ensures w' == Apply(c, w, step) && Leads(c, now, but, more, w')
  {
    more, w' := steps + [step], Apply(c, w, step);
    RunSnoc(c, Start(now), steps, step);
    KeepsSnoc(c, Start(now), steps, step, ALL_RULES - {but});
  }

  /** A new goroutine, which no rule looks at. */
  lemma Begin(c: Config, now: int, but: Rule, steps: seq<Step>, w: World, id: nat, resets: bool) returns (more: seq<Step>, w': World)
    requires Leads(c, now, but, steps, w) && id !in w.at
    ensures Leads(c, now, but, more, w') && w' == World(w.mem, w.at[id := if resets then ResetState else LoadState])
  {
    more, w' := Do(c, now, but, steps, w, Spawn(id, resets));
  }

  /** Time passes, which no rule looks at. */
  lemma Wait(c: Config, now: int, but: Rule, steps: seq<Step>, w: World, delay: nat) returns (more: seq<Step>, w': World)
    requires Leads(c, now, but, steps, w)
    ensures Leads(c, now, but, more, w') && w' == World(w.mem.(now := w.mem.now + delay), w.at)
  {
    more, w' := Do(c, now, but, steps, w, Tick(delay));
  }

  /** An instruction that no rule looks at, unless somebody has just turned the breaker half-open; the outcome of a
      function is a failure. */
  lemma Take(c: Config, now: int, but: Rule, steps: seq<Step>, w: World, id: nat) returns (more: seq<Step>, w': World)
    requires Leads(c, now, but, steps, w) && (but == StoreAfterSwap || NobodyStores(w))
    requires id in w.at && !w.at[id].ReadFailureTime? && !w.at[id].ResetCalls?
    requires var phase := Execute(c, w.mem, w.at[id], false).0.phase; phase == w.mem.phase || phase.Closed?
    ensures Leads(c, now, but, more, w')
    ensures var (m, p) := Execute(c, w.mem, w.at[id], false); w' == World(m, w.at[id := p])
  {
    more, w' := Do(c, now, but, steps, w, Go(id, false));
  }

  /** Goroutines that stay out of the way, but for the rules on returned counts and old failure times. */
  predicate Rests(p: Point) { p.Done? || p.InTrial? || p.ResetCalls? || p.ReturnCall? || p.CompareTime? }

  /** All goroutines rest, and their numbers are below `n`. */
  ghost predicate AtRest(at: map<nat, Point>, n: nat) { forall id <- at :: id < n && Rests(at[id]) }

  ghost predicate NobodyReturns(at: map<nat, Point>) { forall id <- at :: !at[id].ReturnCall? }

  ghost predicate NobodyLate(at: map<nat, Point>) { forall id <- at :: !at[id].AddCall? && !at[id].CheckCall? }

  ghost predicate NobodyCompares(at: map<nat, Point>) { forall id <- at :: !at[id].CompareTime? }

  // ---------- from closed to open ----------

  /** A new goroutine whose call fails, up to the test of the failures. */
  lemma FailTo(c: Config, now: int, but: Rule, steps: seq<Step>, w: World, n: nat) returns (more: seq<Step>, w': World)
    requires Leads(c, now, but, steps, w) && AtRest(w.at, n) && w.mem.phase.Closed?
    ensures Leads(c, now, but, more, w')
    ensures w' == World(w.mem.(failures := w.mem.failures + 1, lastFailureTime := w.mem.now), w.at[n := TestFailures(w.mem.failures + 1)])
  {
    hide Leads;
    more, w' := Begin(c, now, but, steps, w, n, false);
    more, w' := Take(c, now, but, more, w', n);
    more, w' := Take(c, now, but, more, w', n);
    more, w' := Take(c, now, but, more, w', n);
    more, w' := Take(c, now, but, more, w', n);
  }

  /** The breaker right after it opened by itself, with the clock not moved since. */
  ghost predicate JustOpened(c: Config, m: Memory) {
    m.phase.Open? && m.lastFailureTime == m.now && m.openedAt == Some(m.now) && m.failures >= c.failureThreshold
  }

  /** The test of the failures, which may open the breaker. */
  lemma Test(c: Config, now: int, but: Rule, steps: seq<Step>, w: World, id: nat) returns (more: seq<Step>, w': World)
    requires Leads(c, now, but, steps, w) && w.mem.phase.Closed? && NobodyStores(w) && NobodyLate(w.at) && NobodyCompares(w.at)
    requires id in w.at && w.at[id].TestFailures? && (but == OpenAtFailure || w.mem.lastFailureTime == w.mem.now)
    ensures Leads(c, now, but, more, w')
    ensures w' == World(if w.at[id].failures >= c.failureThreshold then Opened(w.mem) else w.mem, w.at[id := Done])
  {
    more, w' := Do(c, now, but, steps, w, Go(id, false));
  }

  /** Enough failing calls open the breaker. */
  lemma {:induction false} OpenUp(c: Config, now: int, but: Rule, steps: seq<Step>, w: World, n: nat)
      returns (more: seq<Step>, w': World, n': nat)
    requires Leads(c, now, but, steps, w) && AtRest(w.at, n) && NobodyCompares(w.at)
    requires w.mem.phase.Closed? && w.mem.failures < c.failureThreshold
    ensures Leads(c, now, but, more, w') && AtRest(w'.at, n') && JustOpened(c, w'.mem)
    ensures w'.mem.now == w.mem.now && w'.mem.halfOpenCalls == w.mem.halfOpenCalls
    ensures NobodyCompares(w'.at) && (NobodyReturns(w.at) ==> NobodyReturns(w'.at))
    ensures forall id <- w.at :: id in w'.at && w'.at[id] == w.at[id]
    decreases c.failureThreshold - w.mem.failures
  {
    more, w' := FailTo(c, now, but, steps, w, n);
    more, w' := Test(c, now, but, more, w', n);
    n' := n + 1;
    if w.mem.failures + 1 < c.failureThreshold {
      more, w', n' := OpenUp(c, now, but, more, w', n');
    }
  }

  // ---------- from open to half-open ----------

  lemma Read(c: Config, now: int, but: Rule, steps: seq<Step>, w: World, id: nat) returns (more: seq<Step>, w': World)
    requires Leads(c, now, but, steps, w) && id in w.at && w.at[id].ReadFailureTime? && NobodyStores(w)
    requires but == ReadAfterStore || forall id <- w.at :: !w.at[id].AddFailure? && !w.at[id].StoreFailureTime?
    ensures Leads(c, now, but, more, w') && w' == World(w.mem, w.at[id := CompareTime(w.mem.lastFailureTime)])
  {
    more, w' := Do(c, now, but, steps, w, Go(id, false));
  }

  /** A new goroutine reads the failure time of an open breaker. */
  lemma ReadTime(c: Config, now: int, but: Rule, steps: seq<Step>, w: World, n: nat) returns (more: seq<Step>, w': World)
    requires Leads(c, now, but, steps, w) && w.mem.phase.Open? && n !in w.at && NobodyStores(w)
    requires but == ReadAfterStore || forall id <- w.at :: !w.at[id].AddFailure? && !w.at[id].StoreFailureTime?
    ensures Leads(c, now, but, more, w') && w' == World(w.mem, w.at[n := CompareTime(w.mem.lastFailureTime)])
  {
    more, w' := Begin(c, now, but, steps, w, n, false);
    more, w' := Take(c, now, but, more, w', n);
    more, w' := Read(c, now, but, more, w', n);
  }

  /** The recovery time has passed for a goroutine that compares it. */
  ghost predicate Due(c: Config, w: World, id: nat) {
    && w.mem.phase.Open? && id in w.at && w.at[id].CompareTime? && w.mem.now - w.at[id].failureTime >= c.recoveryTimeout
  }

  /** It turns the breaker half-open. */
  lemma Swap(c: Config, now: int, but: Rule, steps: seq<Step>, w: World, id: nat) returns (more: seq<Step>, w': World)
    requires Leads(c, now, but, steps, w) && Due(c, w, id) && NobodyStores(w)
    requires but == NoCountPending || NobodyCounts(w.at)
    ensures Leads(c, now, but, more, w')
    ensures w' == World(w.mem.(phase := GoBreaker.HalfOpen, issued := 0), w.at[id := StoreCalls])
  {
    more, w' := Do(c, now, but, steps, w, Go(id, false));
  }

  /** It clears the counter and starts the first trial call. */
  lemma Enter(c: Config, now: int, but: Rule, steps: seq<Step>, w: World, id: nat) returns (more: seq<Step>, w': World)
    requires Leads(c, now, but, steps, w) && id in w.at && w.at[id].StoreCalls?
    requires forall i <- w.at :: w.at[i].StoreCalls? ==> i == id
    ensures Leads(c, now, but, more, w')
    ensures w' == World(w.mem.(halfOpenCalls := 0, issued := w.mem.issued + 1), w.at[id := InTrial])
  {
    more, w' := Do(c, now, but, steps, w, Go(id, false));
  }

  /** A new goroutine that is counted, up to the check of the count. */
  lemma CountIn(c: Config, now: int, but: Rule, steps: seq<Step>, w: World, n: nat) returns (more: seq<Step>, w': World)
    requires Leads(c, now, but, steps, w) && w.mem.phase.HalfOpen? && n !in w.at && (but == StoreAfterSwap || NobodyStores(w))
    ensures Leads(c, now, but, more, w')
    ensures w' == World(w.mem.(halfOpenCalls := w.mem.halfOpenCalls + 1), w.at[n := CheckCall(w.mem.halfOpenCalls + 1)])
  {
    more, w' := Begin(c, now, but, steps, w, n, false);
    more, w' := Take(c, now, but, more, w', n);
    more, w' := Take(c, now, but, more, w', n);
  }

  /** New goroutines join until the counter is at its limit. */
  lemma {:induction false} JoinAll(c: Config, now: int, but: Rule, steps: seq<Step>, w: World, n: nat)
      returns (more: seq<Step>, w': World, n': nat)
    requires Leads(c, now, but, steps, w) && w.mem.phase.HalfOpen? && (but == StoreAfterSwap || NobodyStores(w))
    requires w.mem.halfOpenCalls <= c.halfOpenMaxCalls && forall id <- w.at :: id < n
    ensures Leads(c, now, but, more, w') && (forall id <- w'.at :: id < n')
    ensures w'.mem == w.mem.(halfOpenCalls := c.halfOpenMaxCalls, issued := w.mem.issued + (c.halfOpenMaxCalls - w.mem.halfOpenCalls))
    ensures forall id <- w.at :: id in w'.at && w'.at[id] == w.at[id]
    ensures forall id <- w'.at :: id in w.at || w'.at[id].InTrial?
    decreases c.halfOpenMaxCalls - w.mem.halfOpenCalls
  {
    more, w', n' := steps, w, n;
    if w.mem.halfOpenCalls < c.halfOpenMaxCalls {
      more, w' := CountIn(c, now, but, steps, w, n);
      more, w' := Take(c, now, but, more, w', n);
      more, w', n' := JoinAll(c, now, but, more, w', n + 1);
    }
  }

  // ---------- from half-open back to open ----------

  lemma Leave(c: Config, now: int, but: Rule, steps: seq<Step>, w: World, id: nat) returns (more: seq<Step>, w': World)
    requires Leads(c, now, but, steps, w) && w.mem.phase.HalfOpen? && id in w.at && w.at[id] == LeaveHalfOpen(false) && NobodyStores(w)
    requires (but == NoOldComparison || NobodyCompares(w.at)) && (but == NoLateTrial || NobodyLate(w.at))
    ensures Leads(c, now, but, more, w') && w' == World(Opened(w.mem), w.at[id := AddFailure])
  {
    more, w' := Do(c, now, but, steps, w, Go(id, false));
  }

  /** A trial call fails and opens the breaker again; its failure time is not stored yet. */
  lemma Reopen(c: Config, now: int, but: Rule, steps: seq<Step>, w: World, id: nat) returns (more: seq<Step>, w': World)
    requires Leads(c, now, but, steps, w) && w.mem.phase.HalfOpen? && id in w.at && w.at[id].InTrial? && NobodyStores(w)
    requires (but == NoOldComparison || NobodyCompares(w.at)) && (but == NoLateTrial || NobodyLate(w.at))
    ensures Leads(c, now, but, more, w') && w' == World(Opened(w.mem), w.at[id := AddFailure])
  {
    more, w' := Take(c, now, but, steps, w, id);
    more, w' := Leave(c, now, but, more, w', id);
  }

  lemma RecordFailure(c: Config, now: int, but: Rule, steps: seq<Step>, w: World, id: nat) returns (more: seq<Step>, w': World)
    requires Leads(c, now, but, steps, w) && w.mem.phase.Open? && id in w.at && w.at[id].AddFailure? && NobodyStores(w)
    ensures Leads(c, now, but, more, w')
    ensures w' == World(w.mem.(failures := w.mem.failures + 1, lastFailureTime := w.mem.now), w.at[id := Done])
  {
    more, w' := Take(c, now, but, steps, w, id);
    more, w' := Take(c, now, but, more, w', id);
    more, w' := Take(c, now, but, more, w', id);
  }

  // ---------- the way to the first trial call ----------

  /** The breaker opens by failures and its recovery time passes. */
  lemma BecomeDue(c: Config, now: int, but: Rule, steps: seq<Step>, w: World, n: nat)
      returns (more: seq<Step>, w': World, n': nat)
    requires Leads(c, now, but, steps, w) && AtRest(w.at, n) && NobodyCompares(w.at)
    requires w.mem.phase.Closed? && w.mem.failures < c.failureThreshold
    ensures Leads(c, now, but, more, w') && AtRest(w'.at, n') && NobodyCompares(w'.at)
    ensures w'.mem.phase.Open? && w'.mem.now - w'.mem.lastFailureTime >= c.recoveryTimeout
    ensures w'.mem.halfOpenCalls == w.mem.halfOpenCalls && w'.mem.failures >= c.failureThreshold
    ensures NobodyReturns(w.at) ==> NobodyReturns(w'.at)
    ensures forall id <- w.at :: id in w'.at && w'.at[id] == w.at[id]
  {
    more, w', n' := OpenUp(c, now, but, steps, w, n);
    more, w' := Wait(c, now, but, more, w', if c.recoveryTimeout > 0 then c.recoveryTimeout else 0);
  }

  /** A new goroutine turns a breaker that is due half-open. */
  lemma TurnHalfOpen(c: Config, now: int, but: Rule, steps: seq<Step>, w: World, n: nat) returns (more: seq<Step>, w': World)
    requires Leads(c, now, but, steps, w) && AtRest(w.at, n) && (but == NoCountPending || NobodyReturns(w.at))
    requires w.mem.phase.Open? && w.mem.now - w.mem.lastFailureTime >= c.recoveryTimeout
    ensures Leads(c, now, but, more, w')
    ensures w' == World(w.mem.(phase := GoBreaker.HalfOpen, issued := 0), w.at[n := StoreCalls])
  {
    more, w' := ReadTime(c, now, but, steps, w, n);
    more, w' := Swap(c, now, but, more, w', n);
  }

  // ---------- the bound on trial calls needs its rules ----------

  /** More trial calls started than the limit allows. */
  ghost predicate TooMany(c: Config, w: World) { w.mem.issued > GoBreaker.Most(c) }

  /** The counter is cleared after the state is swapped: calls that are counted in between are forgotten. */
  lemma TooManyTrials(c: Config, now: int) returns (steps: seq<Step>)
    requires c.failureThreshold >= 1 && c.halfOpenMaxCalls >= 1
    ensures Keeps(c, Start(now), steps, ALL_RULES - {StoreAfterSwap}) && TooMany(c, Run(c, Start(now), steps))
  {
    var but, w, g, n := StoreAfterSwap, Start(now), 0, 0;
    steps := [];
    steps, w, g := BecomeDue(c, now, but, steps, w, 0);
    steps, w := TurnHalfOpen(c, now, but, steps, w, g);
    steps, w, n := JoinAll(c, now, but, steps, w, g + 1);
    steps, w := Enter(c, now, but, steps, w, g);
    steps, w, n := JoinAll(c, now, but, steps, w, n);
  }

  /** From the start to a first trial call, with the counter at its limit. */
  lemma FillUp(c: Config, now: int, but: Rule, steps: seq<Step>, w: World, n: nat)
      returns (more: seq<Step>, w': World, g: nat, n': nat)
    requires Leads(c, now, but, steps, w) && AtRest(w.at, n) && NobodyCompares(w.at) && NobodyReturns(w.at)
    requires w.mem.phase.Closed? && w.mem.failures < c.failureThreshold && c.halfOpenMaxCalls >= 0
    ensures Leads(c, now, but, more, w') && AtRest(w'.at, n') && NobodyCompares(w'.at) && NobodyReturns(w'.at)
    ensures w'.mem.phase.HalfOpen? && w'.mem.halfOpenCalls == c.halfOpenMaxCalls && w'.mem.issued == 1 + c.halfOpenMaxCalls
    ensures g in w'.at && w'.at[g].InTrial?
    ensures forall id <- w.at :: id in w'.at && w'.at[id] == w.at[id]
  {
    more, w', g := BecomeDue(c, now, but, steps, w, n);
    more, w' := TurnHalfOpen(c, now, but, more, w', g);
    more, w' := Enter(c, now, but, more, w', g);
    more, w', n' := JoinAll(c, now, but, more, w', g + 1);
  }

  /** A trial call fails, its failure is recorded, and the recovery time passes. */
  lemma ReopenAndWait(c: Config, now: int, but: Rule, steps: seq<Step>, w: World, g: nat) returns (more: seq<Step>, w': World)
    requires Leads(c, now, but, steps, w) && w.mem.phase.HalfOpen? && g in w.at && w.at[g].InTrial? && NobodyStores(w)
    requires NobodyCompares(w.at) && NobodyLate(w.at)
    ensures Leads(c, now, but, more, w') && w'.at == w.at[g := Done]
    ensures w'.mem.phase.Open? && w'.mem.now - w'.mem.lastFailureTime >= c.recoveryTimeout
  {
    more, w' := Reopen(c, now, but, steps, w, g);
    more, w' := RecordFailure(c, now, but, more, w', g);
    more, w' := Wait(c, now, but, more, w', if c.recoveryTimeout > 0 then c.recoveryTimeout else 0);
  }

  /** One call more than the limit, up to giving its count back. */
  lemma Refuse(c: Config, now: int, but: Rule, steps: seq<Step>, w: World, n: nat) returns (more: seq<Step>, w': World)
    requires Leads(c, now, but, steps, w) && w.mem.phase.HalfOpen? && n !in w.at && NobodyStores(w)
    requires w.mem.halfOpenCalls == c.halfOpenMaxCalls
    ensures Leads(c, now, but, more, w')
    ensures w' == World(w.mem.(halfOpenCalls := w.mem.halfOpenCalls + 1), w.at[n := ReturnCall])
  {
    more, w' := CountIn(c, now, but, steps, w, n);
    more, w' := Take(c, now, but, more, w', n);
  }

  /** A call that was refused gives its count back when the next epoch has begun. */
  lemma TooManyAfterReturn(c: Config, now: int) returns (steps: seq<Step>)
    requires c.failureThreshold >= 1 && c.halfOpenMaxCalls >= 0
    ensures Keeps(c, Start(now), steps, ALL_RULES - {NoCountPending}) && TooMany(c, Run(c, Start(now), steps))
  {
    var but, w, g, late := NoCountPending, Start(now), 0, 0;
    steps := [];
    steps, w, g, late := FillUp(c, now, but, steps, w, 0);
    steps, w := Refuse(c, now, but, steps, w, late);
    steps, w := ReopenAndWait(c, now, but, steps, w, g);
    var h := late + 1;
    steps, w := TurnHalfOpen(c, now, but, steps, w, h);
    steps, w := Enter(c, now, but, steps, w, h);
    steps, w := Take(c, now, but, steps, w, late);
    var n: nat;
    steps, w, n := JoinAll(c, now, but, steps, w, h + 1);
  }

  lemma LateReset(c: Config, now: int, but: Rule, steps: seq<Step>, w: World, id: nat) returns (more: seq<Step>, w': World)
    requires Leads(c, now, but, steps, w) && id in w.at && w.at[id].ResetCalls? && NobodyStores(w) && but == ResetAtRest
    ensures Leads(c, now, but, more, w') && w' == World(w.mem.(halfOpenCalls := 0), w.at[id := Done])
  {
    more, w' := Do(c, now, but, steps, w, Go(id, false));
  }

  /** A reset closes the breaker and clears the counter only when the breaker is half-open again. */
  lemma TooManyAfterReset(c: Config, now: int) returns (steps: seq<Step>)
    requires c.failureThreshold >= 1 && c.halfOpenMaxCalls >= 1
    ensures Keeps(c, Start(now), steps, ALL_RULES - {ResetAtRest}) && TooMany(c, Run(c, Start(now), steps))
  {
    var but, w, g, n := ResetAtRest, Start(now), 0, 0;
    steps := [];
    steps, w := Begin(c, now, but, steps, w, 0, true);
    steps, w := Take(c, now, but, steps, w, 0);
    steps, w := Take(c, now, but, steps, w, 0);
    steps, w, g, n := FillUp(c, now, but, steps, w, 1);
    steps, w := LateReset(c, now, but, steps, w, 0);
    steps, w, n := JoinAll(c, now, but, steps, w, n);
  }

  // ---------- the recovery time needs its rules ----------

  /** Some step starts a call within the recovery time of the last opening. */
  ghost predicate TooEarly(c: Config, w: World, step: Step) { !StartsInTime(c, w, step) }

  /** From the start to a first trial call. */
  lemma FirstTrial(c: Config, now: int, but: Rule) returns (steps: seq<Step>, w: World, g: nat)
    requires c.failureThreshold >= 1
    ensures Leads(c, now, but, steps, w) && AtRest(w.at, g + 1) && NobodyCompares(w.at) && NobodyReturns(w.at)
    ensures w.mem.phase.HalfOpen? && w.mem.halfOpenCalls == 0 && g in w.at && w.at[g].InTrial?
    ensures w.mem.now - w.mem.lastFailureTime >= c.recoveryTimeout && w.mem.failures >= c.failureThreshold
  {
    w := Start(now);
    steps := [];
    steps, w, g := BecomeDue(c, now, but, steps, w, 0);
    steps, w := TurnHalfOpen(c, now, but, steps, w, g);
    steps, w := Enter(c, now, but, steps, w, g);
  }

  /** A failed trial call reopens the breaker before it stores the failure time: the old time is read in between. */
  lemma CallDuringRecovery(c: Config, now: int) returns (steps: seq<Step>, step: Step)
    requires c.failureThreshold >= 1 && c.recoveryTimeout > 0
    ensures Keeps(c, Start(now), steps, ALL_RULES - {ReadAfterStore}) && TooEarly(c, Run(c, Start(now), steps), step)
  {
    var but, w, g := ReadAfterStore, Start(now), 0;
    steps, w, g := FirstTrial(c, now, but);
    var h := g + 1;
    steps, w := Reopen(c, now, but, steps, w, g);
    steps, w := ReadTime(c, now, but, steps, w, h);
    steps, w := Swap(c, now, but, steps, w, h);
    step := Go(h, false);
  }

  /** A goroutine compares a time that it read before the breaker was half-open and opened again. */
  lemma CallWithOldTime(c: Config, now: int) returns (steps: seq<Step>, step: Step)
    requires c.failureThreshold >= 1 && c.recoveryTimeout > 0
    ensures Keeps(c, Start(now), steps, ALL_RULES - {NoOldComparison}) && TooEarly(c, Run(c, Start(now), steps), step)
  {
    var but, w, h := NoOldComparison, Start(now), 0;
    steps := [];
    steps, w, h := BecomeDue(c, now, but, steps, w, 0);
    var g := h + 1;
    steps, w := ReadTime(c, now, but, steps, w, h);
    steps, w := TurnHalfOpen(c, now, but, steps, w, g);
    steps, w := Enter(c, now, but, steps, w, g);
    steps, w := Reopen(c, now, but, steps, w, g);
    steps, w := RecordFailure(c, now, but, steps, w, g);
    steps, w := Swap(c, now, but, steps, w, h);
    step := Go(h, false);
  }

  /** A goroutine finds the breaker half-open and is counted when it is open again. */
  lemma LateTrialCall(c: Config, now: int) returns (steps: seq<Step>, step: Step)
    requires c.failureThreshold >= 1 && c.recoveryTimeout > 0 && c.halfOpenMaxCalls >= 1
    ensures Keeps(c, Start(now), steps, ALL_RULES - {NoLateTrial}) && TooEarly(c, Run(c, Start(now), steps), step)
  {
    var but, w, g := NoLateTrial, Start(now), 0;
    steps, w, g := FirstTrial(c, now, but);
    var h := g + 1;
    steps, w := CountIn(c, now, but, steps, w, h);
    steps, w := Reopen(c, now, but, steps, w, g);
    steps, w := RecordFailure(c, now, but, steps, w, g);
    step := Go(h, false);
  }

  /** Failing calls until one short of the threshold. */
  lemma {:induction false} FailAlmost(c: Config, now: int, but: Rule, steps: seq<Step>, w: World, n: nat)
      returns (more: seq<Step>, w': World, n': nat)
    requires Leads(c, now, but, steps, w) && AtRest(w.at, n) && NobodyCompares(w.at)
    requires w.mem.phase.Closed? && w.mem.failures < c.failureThreshold
    ensures Leads(c, now, but, more, w') && AtRest(w'.at, n') && NobodyCompares(w'.at)
    ensures w'.mem.phase.Closed? && w'.mem.failures == c.failureThreshold - 1 && w'.mem.now == w.mem.now
    ensures NobodyReturns(w.at) ==> NobodyReturns(w'.at)
    decreases c.failureThreshold - w.mem.failures
  {
    more, w', n' := steps, w, n;
    if w.mem.failures + 1 < c.failureThreshold {
      more, w' := FailTo(c, now, but, steps, w, n);
      more, w' := Test(c, now, but, more, w', n);
      more, w', n' := FailAlmost(c, now, but, more, w', n + 1);
    }
  }

  /** The failure that opens the breaker was stored a recovery time ago. */
  lemma CallAfterSlowOpening(c: Config, now: int) returns (steps: seq<Step>, step: Step)
    requires c.failureThreshold >= 1 && c.recoveryTimeout > 0
    ensures Keeps(c, Start(now), steps, ALL_RULES - {OpenAtFailure}) && TooEarly(c, Run(c, Start(now), steps), step)
  {
    var but, w, g := OpenAtFailure, Start(now), 0;
    steps := [];
    steps, w, g := FailAlmost(c, now, but, steps, w, 0);
    steps, w := FailTo(c, now, but, steps, w, g);
    steps, w := Wait(c, now, but, steps, w, c.recoveryTimeout);
    steps, w := Test(c, now, but, steps, w, g);
    steps, w := TurnHalfOpen(c, now, but, steps, w, g + 1);
    step := Go(g + 1, false);
  }

  // ---------- the exact conditions ----------

  lemma SevenRules(rules: set<Rule>, missing: Rule)
    requires missing !in rules
    ensures rules <= ALL_RULES - {missing}
  {
    forall rule | rule in rules ensures rule in ALL_RULES {
      match rule {
        case StoreAfterSwap =>
        case NoCountPending =>
        case ResetAtRest =>
        case ReadAfterStore =>
        case NoOldComparison =>
        case NoLateTrial =>
        case OpenAtFailure =>
      }
    }
  }

  ghost predicate BoundedAfter(c: Config, now: int, rules: set<Rule>, steps: seq<Step>) {
    Keeps(c, Start(now), steps, rules) ==> !TooMany(c, Run(c, Start(now), steps))
  }

  lemma TrialRuleNeeded(c: Config, now: int, rules: set<Rule>, missing: Rule) returns (steps: seq<Step>)
    requires c.failureThreshold >= 1 && c.halfOpenMaxCalls >= 1 && missing in TRIAL_RULES && missing !in rules
    ensures !BoundedAfter(c, now, rules, steps)
  {
    if missing == StoreAfterSwap {
      steps := TooManyTrials(c, now);
    } else if missing == NoCountPending {
      steps := TooManyAfterReturn(c, now);
    } else {
      steps := TooManyAfterReset(c, now);
    }
    SevenRules(rules, missing);
    KeepsFewer(c, Start(now), steps, ALL_RULES - {missing}, rules);
  }

  /** For a set of rules: every interleaving that keeps them starts at most 1 + HalfOpenMaxCalls trial calls between
      two turns to half-open, if and only if the three trial rules are among them. */
  lemma TrialsBoundedIff(c: Config, now: int, rules: set<Rule>)
    requires c.failureThreshold >= 1 && c.halfOpenMaxCalls >= 1
    ensures (forall steps :: BoundedAfter(c, now, rules, steps)) <==> TRIAL_RULES <= rules
  {
    if TRIAL_RULES <= rules {
      forall steps | Keeps(c, Start(now), steps, rules) ensures BoundedAfter(c, now, rules, steps) {
        KeepsFewer(c, Start(now), steps, rules, TRIAL_RULES);
        RulesBoundTrials(c, now, steps);
      }
    } else {
      var missing :| missing in TRIAL_RULES && missing !in rules;
      var steps := TrialRuleNeeded(c, now, rules, missing);
    }
  }

  ghost predicate InTimeAfter(c: Config, now: int, rules: set<Rule>, steps: seq<Step>, step: Step) {
    Keeps(c, Start(now), steps, rules) ==> !TooEarly(c, Run(c, Start(now), steps), step)
  }

  lemma RecoveryRuleNeeded(c: Config, now: int, rules: set<Rule>, missing: Rule) returns (steps: seq<Step>, step: Step)
    requires c.failureThreshold >= 1 && c.halfOpenMaxCalls >= 1 && c.recoveryTimeout > 0
    requires missing in RECOVERY_RULES && missing !in rules
    ensures !InTimeAfter(c, now, rules, steps, step)
  {
    if missing == ReadAfterStore {
      steps, step := CallDuringRecovery(c, now);
    } else if missing == NoOldComparison {
      steps, step := CallWithOldTime(c, now);
    } else if missing == NoLateTrial {
      steps, step := LateTrialCall(c, now);
    } else {
      steps, step := CallAfterSlowOpening(c, now);
    }
    SevenRules(rules, missing);
    KeepsFewer(c, Start(now), steps, ALL_RULES - {missing}, rules);
  }

  /** And no call starts within the recovery time of an opening, unless after a reset, if and only if the four
      recovery rules are among them. */
  lemma RecoveryKeptIff(c: Config, now: int, rules: set<Rule>)
    requires c.failureThreshold >= 1 && c.halfOpenMaxCalls >= 1 && c.recoveryTimeout > 0
    ensures (forall steps, step :: InTimeAfter(c, now, rules, steps, step)) <==> RECOVERY_RULES <= rules
  {
    if RECOVERY_RULES <= rules {
      forall steps, step | Keeps(c, Start(now), steps, rules) ensures InTimeAfter(c, now, rules, steps, step) {
        KeepsFewer(c, Start(now), steps, rules, RECOVERY_RULES);
        RulesGiveRecovery(c, now, steps, step);
      }
    } else {
      var missing :| missing in RECOVERY_RULES && missing !in rules;
      var steps, step := RecoveryRuleNeeded(c, now, rules, missing);
    }
  }

  /** Between two instructions a closed breaker can hold as many failures as the threshold, whichever rule may be
      broken; `GoBreakerRaces.ClosedIsRepaired` says what holds always. */
  lemma ClosedAtThreshold(c: Config, now: int, but: Rule) returns (steps: seq<Step>)
    requires c.failureThreshold >= 1
    ensures Keeps(c, Start(now), steps, ALL_RULES - {but})
    ensures var m := Run(c, Start(now), steps).mem; m.phase.Closed? && m.failures == c.failureThreshold
  {
    var w, g := Start(now), 0;
    steps := [];
    steps, w, g := FailAlmost(c, now, but, steps, w, 0);
    steps, w := FailTo(c, now, but, steps, w, g);
  }
}
