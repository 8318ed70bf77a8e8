/** go/vedadb/circuit.go, instruction by instruction. */
module GoBreakerRaces {
  // Goroutines run `Call` and `Reset` concurrently; each load, store, addition and compare-and-swap is one step,
  // in any interleaving. Half-open is always left again and too many failures are always repaired; the bound on
  // trial calls and the recovery time hold in the interleavings that keep certain rules. Module
  // `GoBreakerSchedules` shows that no rule can be dropped.

  import opened Wrappers
  import opened GoBreaker

  /** Where a goroutine is. The name says which instruction comes next; the test of the elapsed time only reads
      the clock and belongs to the swap that follows it. */
  datatype Point =
    | LoadState
    | ReadFailureTime
    | CompareTime(failureTime: int)
    | StoreCalls                        // it has moved the breaker to half-open
    | AddCall
    | CheckCall(calls: int)
    | ReturnCall
    | InTrial                           // the function runs in `executeHalfOpen`
    | InNormal                          // the function runs in `executeClosed`
    | LeaveHalfOpen(ok: bool)
    | AddFailure
    | StoreFailureTime(failures: int)
    | TestFailures(failures: int)
    | ClearFailures
    | AddSuccess
    | ResetState
    | ResetFailures
    | ResetCalls
    | Done

  /** The last two components are history: when the breaker opened last, forgotten by a reset, and how many trial
      calls started since it last turned half-open. */
  datatype Memory = Memory(
    phase: Phase, failures: int, halfOpenCalls: int, lastFailureTime: int, now: int, openedAt: Option<int>, issued: nat)

  /** The shared memory and the goroutines. */
  datatype World = World(mem: Memory, at: map<nat, Point>)

  function Start(now: int): World { World(Memory(Closed, 0, 0, 0, now, None, 0), map[]) }

  /** A new goroutine, a passage of time, or the next instruction of a goroutine; `ok` is the outcome of
      the function when that instruction is the function. */
  datatype Step = Spawn(id: nat, resets: bool) | Tick(delay: nat) | Go(id: nat, ok: bool)

  function Opened(m: Memory): Memory { m.(phase := Open, openedAt := Some(m.now)) }

  function Execute(c: Config, m: Memory, p: Point, ok: bool): (Memory, Point) {
    match p
    case LoadState => (m, match m.phase
                          case Open => ReadFailureTime
                          case HalfOpen => AddCall
                          case Closed => InNormal)
    case ReadFailureTime => (m, CompareTime(m.lastFailureTime))
    case CompareTime(t) =>
      if m.now - t < c.recoveryTimeout then (m, Done)
      else if m.phase == Open then (m.(phase := HalfOpen, issued := 0), StoreCalls)
      else (m, LoadState)
    case StoreCalls => (m.(halfOpenCalls := 0, issued := m.issued + 1), InTrial)
    case AddCall => (m.(halfOpenCalls := m.halfOpenCalls + 1), CheckCall(m.halfOpenCalls + 1))
    case CheckCall(calls) => if calls > c.halfOpenMaxCalls then (m, ReturnCall) else (m.(issued := m.issued + 1), InTrial)
    case ReturnCall => (m.(halfOpenCalls := m.halfOpenCalls - 1), Done)
    case InTrial => (m, LeaveHalfOpen(ok))
    case InNormal => (m, if ok then ClearFailures else AddFailure)
    case LeaveHalfOpen(good) =>
      (if m.phase != HalfOpen then m else if good then m.(phase := Closed) else Opened(m),
       if good then ClearFailures else AddFailure)
    case AddFailure => (m.(failures := m.failures + 1), StoreFailureTime(m.failures + 1))
    case StoreFailureTime(f) => (m.(lastFailureTime := m.now), TestFailures(f))
    case TestFailures(f) => (if f >= c.failureThreshold && m.phase == Closed then Opened(m) else m, Done)
    case ClearFailures => (m.(failures := 0), AddSuccess)
    case AddSuccess => (m, Done)
    case ResetState => (m.(phase := Closed, openedAt := None), ResetFailures)
    case ResetFailures => (m.(failures := 0), ResetCalls)
    case ResetCalls => (m.(halfOpenCalls := 0), Done)
    case Done => (m, Done)
  }

  function Apply(c: Config, w: World, step: Step): World {
    match step
    case Spawn(id, resets) => if id in w.at then w else w.(at := w.at[id := if resets then ResetState else LoadState])
    case Tick(delay) => w.(mem := w.mem.(now := w.mem.now + delay))
    case Go(id, ok) =>
      if id !in w.at then w
      else
        var (mem, next) := Execute(c, w.mem, w.at[id], ok);
        World(mem, w.at[id := next])
  }

  function Run(c: Config, w: World, steps: seq<Step>): World
    decreases |steps|
  {
    if steps == [] then w else Run(c, Apply(c, w, steps[0]), steps[1..])
  }

  lemma {:induction false} RunSnoc(c: Config, w: World, steps: seq<Step>, last: Step)
    ensures Run(c, w, steps + [last]) == Apply(c, Run(c, w, steps), last)
    decreases |steps|
  {
    if steps == [] {
      assert [last][1..] == [];
      assert steps + [last] == [last];
    } else {
      assert (steps + [last])[1..] == steps[1..] + [last];
      RunSnoc(c, Apply(c, w, steps[0]), steps[1..], last);
    }
  }

  // ---------- half-open is always left again ----------

  /** The goroutine has still to execute the compare-and-swap that takes the breaker out of half-open. */
  predicate Leaving(p: Point) {
    p.StoreCalls? || p.InTrial? || p.LeaveHalfOpen?
  }

  ghost predicate SomebodyLeaves(w: World) {
    w.mem.phase == HalfOpen ==> exists id :: id in w.at && Leaving(w.at[id])
  }

  lemma ApplyLeaves(c: Config, w: World, step: Step)
    requires SomebodyLeaves(w)
    ensures SomebodyLeaves(Apply(c, w, step))
  {
    var w' := Apply(c, w, step);
    if w'.mem.phase == HalfOpen {
      if w.mem.phase != HalfOpen {
        assert step.Go? && Leaving(w'.at[step.id]);
      } else {
        var id :| id in w.at && Leaving(w.at[id]);
        assert id in w'.at && Leaving(w'.at[id]);
      }
    }
  }

  lemma {:induction false} RunLeaves(c: Config, w: World, steps: seq<Step>)
    requires SomebodyLeaves(w)
    ensures SomebodyLeaves(Run(c, w, steps))
    decreases |steps|
  {
    if steps != [] {
      ApplyLeaves(c, w, steps[0]);
      RunLeaves(c, Apply(c, w, steps[0]), steps[1..]);
    }
  }

  /** In every interleaving, a half-open breaker has a goroutine that will take it out of half-open: the
      breaker cannot get stuck refusing calls with nobody left to close or reopen it. */
  lemma HalfOpenIsLeft(c: Config, now: int, steps: seq<Step>)
    ensures SomebodyLeaves(Run(c, Start(now), steps))
  {
    RunLeaves(c, Start(now), steps);
  }

  /** `n` instructions of one goroutine in a row. */
  function Alone(c: Config, w: World, id: nat, ok: bool, n: nat): World
    decreases n
  {
    if n == 0 then w else Alone(c, Apply(c, w, Go(id, ok)), id, ok, n - 1)
  }

  /** From every reachable half-open world, some goroutine needs at most three instructions of its own, whatever
      its function returns, until the breaker is closed or open. */
  lemma HalfOpenEnds(c: Config, now: int, steps: seq<Step>, ok: bool) returns (id: nat, n: nat)
    requires Run(c, Start(now), steps).mem.phase == HalfOpen
    ensures n <= 3 && Alone(c, Run(c, Start(now), steps), id, ok, n).mem.phase != HalfOpen
  {
    HalfOpenIsLeft(c, now, steps);
    var w := Run(c, Start(now), steps);
    id :| id in w.at && Leaving(w.at[id]);
    n := if w.at[id].LeaveHalfOpen? then 1 else if w.at[id].InTrial? then 2 else 3;
    var w1 := Apply(c, w, Go(id, ok));
    var w2 := Apply(c, w1, Go(id, ok));
    var w3 := Apply(c, w2, Go(id, ok));
    assert Alone(c, w, id, ok, 1) == w1;
    assert Alone(c, w, id, ok, 2) == Alone(c, w1, id, ok, 1) == w2;
    assert Alone(c, w, id, ok, 3) == Alone(c, w1, id, ok, 2) == Alone(c, w2, id, ok, 1) == w3;
  }

  // ---------- too many failures are always repaired ----------

  /** The goroutine is about to open the breaker or to forget the failures. */
  predicate Repairing(c: Config, p: Point) {
    p.ClearFailures? || p.ResetFailures? || ((p.StoreFailureTime? || p.TestFailures?) && p.failures >= c.failureThreshold)
  }

  ghost predicate SomebodyRepairs(c: Config, w: World) {
    w.mem.phase == Closed && w.mem.failures >= c.failureThreshold ==> exists id :: id in w.at && Repairing(c, w.at[id])
  }

  lemma ApplyRepairs(c: Config, w: World, step: Step)
    requires SomebodyRepairs(c, w) && c.failureThreshold >= 1
    ensures SomebodyRepairs(c, Apply(c, w, step))
  {
    var w' := Apply(c, w, step);
    if w'.mem.phase == Closed && w'.mem.failures >= c.failureThreshold {
      if w.mem.phase == Closed && w.mem.failures >= c.failureThreshold {
        var id :| id in w.at && Repairing(c, w.at[id]);
        assert id in w'.at && Repairing(c, w'.at[id]);
      } else {
        assert step.Go? && Repairing(c, w'.at[step.id]);
      }
    }
  }

  lemma {:induction false} RunRepairs(c: Config, w: World, steps: seq<Step>)
    requires SomebodyRepairs(c, w) && c.failureThreshold >= 1
    ensures SomebodyRepairs(c, Run(c, w, steps))
    decreases |steps|
  {
    if steps != [] {
      ApplyRepairs(c, w, steps[0]);
      RunRepairs(c, Apply(c, w, steps[0]), steps[1..]);
    }
  }

  /** In every interleaving, a closed breaker with too many failures has a goroutine that is about to open it or to
      forget the failures; so in particular there is none when every goroutine is done. */
  lemma ClosedIsRepaired(c: Config, now: int, steps: seq<Step>)
    requires c.failureThreshold >= 1
    ensures
      var w := Run(c, Start(now), steps);
      && SomebodyRepairs(c, w)
      && (w.mem.phase == Closed && (forall id <- w.at :: w.at[id] == Done) ==> w.mem.failures < c.failureThreshold)
  {
    RunRepairs(c, Start(now), steps);
  }

  // ---------- rules of an interleaving ----------

  datatype Rule =
    | StoreAfterSwap    // between the swap to half-open and the clearing of the counter nobody is counted, or swaps again
    | NoCountPending    // the swap to half-open finds nobody who has still to check or give back a count
    | ResetAtRest       // a reset clears the counter when not half-open and nobody is about to be counted
    | ReadAfterStore    // the failure time is read when nobody has still to store one
    | NoOldComparison   // the breaker opens when nobody holds a failure time to compare
    | NoLateTrial       // the breaker opens when nobody is about to start a trial call
    | OpenAtFailure     // the test that opens the breaker finds the failure time of this very moment

  const ALL_RULES := {StoreAfterSwap, NoCountPending, ResetAtRest, ReadAfterStore, NoOldComparison, NoLateTrial, OpenAtFailure}
  const TRIAL_RULES := {StoreAfterSwap, NoCountPending, ResetAtRest}
  const RECOVERY_RULES := {ReadAfterStore, NoOldComparison, NoLateTrial, OpenAtFailure}

  predicate Turns(c: Config, w: World, step: Step, to: Phase) {
    w.mem.phase != to && Apply(c, w, step).mem.phase == to
  }

  predicate Executes(w: World, step: Step, p: Point) { step.Go? && step.id in w.at && w.at[step.id] == p }

  ghost predicate Obeys(c: Config, w: World, step: Step, rule: Rule) {
    match rule
    case StoreAfterSwap =>
      Turns(c, w, step, HalfOpen) || Executes(w, step, AddCall) ==> forall id <- w.at :: !w.at[id].StoreCalls?
    case NoCountPending => Turns(c, w, step, HalfOpen) ==> forall id <- w.at :: !w.at[id].CheckCall? && !w.at[id].ReturnCall?
    case ResetAtRest =>
      Executes(w, step, ResetCalls) ==>
        w.mem.phase != HalfOpen && forall id <- w.at :: !w.at[id].AddCall? && !w.at[id].CheckCall? && !w.at[id].ReturnCall?
    case ReadAfterStore =>
      Executes(w, step, ReadFailureTime) ==> forall id <- w.at :: !w.at[id].AddFailure? && !w.at[id].StoreFailureTime?
    case NoOldComparison => Turns(c, w, step, Open) ==> forall id <- w.at :: !w.at[id].CompareTime?
    case NoLateTrial =>
      Turns(c, w, step, Open) ==> forall id <- w.at :: !w.at[id].StoreCalls? && !w.at[id].AddCall? && !w.at[id].CheckCall?
    case OpenAtFailure =>
      Turns(c, w, step, Open) && w.at[step.id].TestFailures? ==> w.mem.lastFailureTime == w.mem.now
  }

  ghost predicate ObeysAll(c: Config, w: World, step: Step, rules: set<Rule>) {
    forall rule <- rules :: Obeys(c, w, step, rule)
  }

  ghost predicate Keeps(c: Config, w: World, steps: seq<Step>, rules: set<Rule>)
    decreases |steps|
  {
    steps == [] || (ObeysAll(c, w, steps[0], rules) && Keeps(c, Apply(c, w, steps[0]), steps[1..], rules))
  }

  lemma {:induction false} KeepsSnoc(c: Config, w: World, steps: seq<Step>, last: Step, rules: set<Rule>)
    requires Keeps(c, w, steps, rules) && ObeysAll(c, Run(c, w, steps), last, rules)
    ensures Keeps(c, w, steps + [last], rules)
    decreases |steps|
  {
    if steps == [] {
      assert steps + [last] == [last] && [last][1..] == [];
      assert Keeps(c, Apply(c, w, last), [], rules);
    } else {
      assert (steps + [last])[1..] == steps[1..] + [last];
      KeepsSnoc(c, Apply(c, w, steps[0]), steps[1..], last, rules);
    }
  }

  // ---------- the recovery time ----------

  /** The step starts the function of a call. */
  predicate CallStarts(c: Config, w: World, step: Step) {
    && step.Go? && step.id in w.at
    && var next := Execute(c, w.mem, w.at[step.id], step.ok).1;
       (next.InTrial? || next.InNormal?) && next != w.at[step.id]
  }

  /** The failure time belongs to the last opening, or the goroutine that opened has still to store it. */
  ghost predicate TimeStored(w: World) {
    w.mem.phase == Open ==>
      && w.mem.openedAt.Some? && w.mem.openedAt.value <= w.mem.now
      && (w.mem.openedAt.value <= w.mem.lastFailureTime
          || exists id :: id in w.at && (w.at[id].AddFailure? || w.at[id].StoreFailureTime?))
  }

  ghost predicate Recovered(c: Config, w: World) {
    w.mem.phase != Open && w.mem.openedAt.Some? ==> w.mem.now - w.mem.openedAt.value >= c.recoveryTimeout
  }

  ghost predicate Current(w: World) {
    w.mem.phase == Open ==>
      && w.mem.openedAt.Some?
      && (forall id <- w.at :: w.at[id].CompareTime? ==> w.at[id].failureTime >= w.mem.openedAt.value)
      && (forall id <- w.at :: !w.at[id].StoreCalls? && !w.at[id].AddCall? && !w.at[id].CheckCall?)
  }

  lemma ApplyTimeStored(c: Config, w: World, step: Step)
    requires TimeStored(w) && Obeys(c, w, step, OpenAtFailure)
    ensures TimeStored(Apply(c, w, step))
  {
    var w' := Apply(c, w, step);
    if w'.mem.phase == Open {
      if w.mem.phase != Open {
        assert step.Go? && (w'.at[step.id].AddFailure? || w'.mem.openedAt.value <= w'.mem.lastFailureTime);
      } else if w.mem.openedAt.value > w.mem.lastFailureTime {
        var id :| id in w.at && (w.at[id].AddFailure? || w.at[id].StoreFailureTime?);
        assert id in w'.at;
        assert w'.at[id].AddFailure? || w'.at[id].StoreFailureTime? || w'.mem.openedAt.value <= w'.mem.lastFailureTime;
      }
    }
  }

  lemma ApplyCurrent(c: Config, w: World, step: Step)
    requires TimeStored(w) && Current(w) && ObeysAll(c, w, step, RECOVERY_RULES)
    ensures Current(Apply(c, w, step))
  {
    assert Obeys(c, w, step, ReadAfterStore) && Obeys(c, w, step, NoOldComparison) && Obeys(c, w, step, NoLateTrial);
    if Executes(w, step, ReadFailureTime) && w.mem.phase == Open {
      assert w.mem.openedAt.value <= w.mem.lastFailureTime;
    }
  }

  lemma ApplyRecovered(c: Config, w: World, step: Step)
    requires Recovered(c, w) && Current(w)
    ensures Recovered(c, Apply(c, w, step))
  {
  }

  ghost predicate RecoveryInv(c: Config, w: World) { TimeStored(w) && Recovered(c, w) && Current(w) }

  lemma {:induction false} RunRecovers(c: Config, w: World, steps: seq<Step>)
    requires RecoveryInv(c, w) && Keeps(c, w, steps, RECOVERY_RULES)
    ensures RecoveryInv(c, Run(c, w, steps))
    decreases |steps|
  {
    if steps != [] {
      assert Obeys(c, w, steps[0], OpenAtFailure);
      ApplyTimeStored(c, w, steps[0]);
      ApplyCurrent(c, w, steps[0]);
      ApplyRecovered(c, w, steps[0]);
      RunRecovers(c, Apply(c, w, steps[0]), steps[1..]);
    }
  }

  ghost predicate StartsInTime(c: Config, w: World, step: Step) {
    CallStarts(c, w, step) && w.mem.openedAt.Some? ==> w.mem.now - w.mem.openedAt.value >= c.recoveryTimeout
  }

  /** In every interleaving that keeps the recovery rules, no call starts within the recovery timeout of an
      opening, unless a reset came in between. */
  lemma RulesGiveRecovery(c: Config, now: int, steps: seq<Step>, step: Step)
    requires Keeps(c, Start(now), steps, RECOVERY_RULES)
    ensures StartsInTime(c, Run(c, Start(now), steps), step)
  {
    RunRecovers(c, Start(now), steps);
  }

  lemma {:induction false} KeepsFewer(c: Config, w: World, steps: seq<Step>, rules: set<Rule>, fewer: set<Rule>)
    requires Keeps(c, w, steps, rules) && fewer <= rules
    ensures Keeps(c, w, steps, fewer)
    decreases |steps|
  {
    if steps != [] {
      KeepsFewer(c, Apply(c, w, steps[0]), steps[1..], rules, fewer);
    }
  }

  // ---------- the number of trial calls ----------

  /** Counted, still to be checked, and going to be admitted. */
  predicate IsAdmitted(c: Config, p: Point) { p.CheckCall? && p.calls <= c.halfOpenMaxCalls }

  /** Counted, and going to be given back. */
  predicate IsRefused(c: Config, p: Point) { p.ReturnCall? || (p.CheckCall? && p.calls > c.halfOpenMaxCalls) }

  ghost function Admitted(c: Config, at: map<nat, Point>): set<nat> {
    set id | id in at && IsAdmitted(c, at[id])
  }

  ghost function Refused(c: Config, at: map<nat, Point>): set<nat> {
    set id | id in at && IsRefused(c, at[id])
  }

  ghost predicate NobodyCounts(at: map<nat, Point>) {
    forall id <- at :: !at[id].CheckCall? && !at[id].ReturnCall?
  }

  /** The counter is the number of calls that joined, will join or will be given back. */
  ghost predicate Counting(c: Config, w: World) {
    && w.mem.issued >= 1
    && w.mem.halfOpenCalls == w.mem.issued - 1 + |Admitted(c, w.at)| + |Refused(c, w.at)|
  }

  /** Nobody can be counted until the next turn to half-open. */
  ghost predicate Dormant(w: World) {
    w.mem.phase != HalfOpen && NobodyCounts(w.at) && forall id <- w.at :: !w.at[id].AddCall?
  }

  /** Between the swap and the clearing of the counter. */
  ghost predicate Swapped(w: World) {
    && w.mem.issued == 0 && NobodyCounts(w.at)
    && (exists id :: id in w.at && w.at[id].StoreCalls?)
    && (forall i, j :: i in w.at && j in w.at && w.at[i].StoreCalls? && w.at[j].StoreCalls? ==> i == j)
  }

  ghost predicate NobodyStores(w: World) { forall id <- w.at :: !w.at[id].StoreCalls? }

  ghost predicate TrialsInv(c: Config, w: World) {
    && w.mem.issued + |Admitted(c, w.at)| <= Most(c)
    && (Swapped(w) || (NobodyStores(w) && (Counting(c, w) || Dormant(w))))
  }

  function One(b: bool): nat { if b then 1 else 0 }

  lemma Recounted(before: set<nat>, after: set<nat>, id: nat)
    requires before - {id} == after - {id}
    ensures |after| == |before| - One(id in before) + One(id in after)
  {
    assert before == if id in before then (before - {id}) + {id} else before - {id};
    assert after == if id in after then (before - {id}) + {id} else before - {id};
  }

  lemma MoveCounts(c: Config, at: map<nat, Point>, id: nat, p: Point)
    requires id in at
    ensures |Admitted(c, at[id := p])| == |Admitted(c, at)| - One(IsAdmitted(c, at[id])) + One(IsAdmitted(c, p))
    ensures |Refused(c, at[id := p])| == |Refused(c, at)| - One(IsRefused(c, at[id])) + One(IsRefused(c, p))
  {
    Recounted(Admitted(c, at), Admitted(c, at[id := p]), id);
    Recounted(Refused(c, at), Refused(c, at[id := p]), id);
  }

  lemma SpawnCounts(c: Config, at: map<nat, Point>, id: nat, p: Point)
    requires id !in at && !p.CheckCall? && !p.ReturnCall?
    ensures Admitted(c, at[id := p]) == Admitted(c, at) && Refused(c, at[id := p]) == Refused(c, at)
  {
  }

  lemma NobodyIsCounted(c: Config, at: map<nat, Point>)
    requires NobodyCounts(at)
    ensures Admitted(c, at) == {} && Refused(c, at) == {}
  {
  }

  lemma WaitTrials(c: Config, w: World, step: Step)
    requires TrialsInv(c, w) && !step.Go?
    ensures TrialsInv(c, Apply(c, w, step))
  {
    var w' := Apply(c, w, step);
    if step.Spawn? && step.id !in w.at {
      SpawnCounts(c, w.at, step.id, w'.at[step.id]);
      if Swapped(w) {
        var id :| id in w.at && w.at[id].StoreCalls?;
        assert id in w'.at && w'.at[id].StoreCalls?;
      }
    }
  }

  lemma SwapTrials(c: Config, w: World, step: Step)
    requires TrialsInv(c, w) && ObeysAll(c, w, step, TRIAL_RULES) && Turns(c, w, step, HalfOpen)
    ensures TrialsInv(c, Apply(c, w, step))
  {
    assert Obeys(c, w, step, StoreAfterSwap) && Obeys(c, w, step, NoCountPending);
    var w' := Apply(c, w, step);
    assert w.at[step.id].CompareTime? && w'.at[step.id].StoreCalls?;
    NobodyIsCounted(c, w'.at);
  }

  lemma StoreTrials(c: Config, w: World, step: Step)
    requires TrialsInv(c, w) && Swapped(w) && step.Go? && step.id in w.at && w.at[step.id].StoreCalls?
    ensures TrialsInv(c, Apply(c, w, step))
  {
    var w' := Apply(c, w, step);
    NobodyIsCounted(c, w'.at);
    assert Counting(c, w');
  }

  lemma SwappedTrials(c: Config, w: World, step: Step)
    requires TrialsInv(c, w) && Swapped(w) && step.Go? && step.id in w.at && !w.at[step.id].StoreCalls?
    requires !Turns(c, w, step, HalfOpen) && Obeys(c, w, step, StoreAfterSwap)
    ensures TrialsInv(c, Apply(c, w, step))
  {
    var w' := Apply(c, w, step);
    var id :| id in w.at && w.at[id].StoreCalls?;
    assert id in w'.at && w'.at[id].StoreCalls? && !w.at[step.id].AddCall?;
    NobodyIsCounted(c, w'.at);
  }

  lemma CountTrials(c: Config, w: World, step: Step)
    requires TrialsInv(c, w) && Counting(c, w) && NobodyStores(w) && ObeysAll(c, w, step, TRIAL_RULES)
    requires step.Go? && step.id in w.at && !Turns(c, w, step, HalfOpen)
    ensures TrialsInv(c, Apply(c, w, step))
  {
    var p, w' := w.at[step.id], Apply(c, w, step);
    MoveCounts(c, w.at, step.id, w'.at[step.id]);
    if p.ResetCalls? {
      assert Obeys(c, w, step, ResetAtRest);
    }
  }

  lemma DormantTrials(c: Config, w: World, step: Step)
    requires TrialsInv(c, w) && Dormant(w) && NobodyStores(w)
    requires step.Go? && step.id in w.at && !Turns(c, w, step, HalfOpen)
    ensures TrialsInv(c, Apply(c, w, step))
  {
    var w' := Apply(c, w, step);
    NobodyIsCounted(c, w.at);
    NobodyIsCounted(c, w'.at);
  }

  lemma ApplyTrials(c: Config, w: World, step: Step)
    requires TrialsInv(c, w) && ObeysAll(c, w, step, TRIAL_RULES)
    ensures TrialsInv(c, Apply(c, w, step))
  {
    if !step.Go? || step.id !in w.at {
      if !step.Go? {
        WaitTrials(c, w, step);
      }
    } else if Turns(c, w, step, HalfOpen) {
      SwapTrials(c, w, step);
    } else if Swapped(w) {
      assert Obeys(c, w, step, StoreAfterSwap);
      if w.at[step.id].StoreCalls? {
        StoreTrials(c, w, step);
      } else {
        SwappedTrials(c, w, step);
      }
    } else if Counting(c, w) {
      CountTrials(c, w, step);
    } else {
      DormantTrials(c, w, step);
    }
  }

  lemma {:induction false} RunTrials(c: Config, w: World, steps: seq<Step>)
    requires TrialsInv(c, w) && Keeps(c, w, steps, TRIAL_RULES)
    ensures TrialsInv(c, Run(c, w, steps))
    decreases |steps|
  {
    if steps != [] {
      ApplyTrials(c, w, steps[0]);
      RunTrials(c, Apply(c, w, steps[0]), steps[1..]);
    }
  }

  /** In every interleaving that keeps the trial rules, at most 1 + HalfOpenMaxCalls trial calls start between two
      turns to half-open. */
  lemma RulesBoundTrials(c: Config, now: int, steps: seq<Step>)
    requires Keeps(c, Start(now), steps, TRIAL_RULES)
    ensures Run(c, Start(now), steps).mem.issued <= Most(c)
  {
    NobodyIsCounted(c, Start(now).at);
    RunTrials(c, Start(now), steps);
  }
}
