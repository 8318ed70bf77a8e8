/** The polling change stream of go/vedadb/streams.go. */
module Streams {
  // The server has an append-only log.

  import opened Wrappers

  datatype Event = Event(lsn: int, operation: string, document: int)

  datatype WatchOptions = WatchOptions(resumeAfter: int, operationTypes: seq<string>)

  predicate ShouldInclude(e: Event, opts: WatchOptions) {
    opts.operationTypes == [] || e.operation in opts.operationTypes
  }

  // ---------- the poller ----------

  /** One turn of the select loop. `cancelledAt` is the event of the block during whose hand-over the context
      is seen to be cancelled. */
  datatype Step =
    | Done
    | Heartbeat
    | FetchFails
    | Fetched(events: seq<Event>, cancelledAt: Option<nat>)

  /** `inHand` is the event that was being handed over when the poller stopped. */
  datatype Poller = Poller(lastLSN: int, delivered: seq<Event>, inHand: Option<Event>, closed: bool, heartbeats: seq<int>)

  function Start(opts: WatchOptions): (r: int)
    ensures r >= 0
  {
    if opts.resumeAfter > 0 then opts.resumeAfter else 0
  }

  function Take(s: Poller, e: Event, opts: WatchOptions, cancelled: bool): Poller {
    var next := s.(lastLSN := if e.lsn > s.lastLSN then e.lsn else s.lastLSN);
    if !ShouldInclude(e, opts) then next
    else if cancelled then next.(inHand := Some(e), closed := true)
    else next.(delivered := s.delivered + [e])
  }

  /** The first `n` events of a block. */
  function TakeFirst(s: Poller, events: seq<Event>, n: nat, cancelledAt: Option<nat>, opts: WatchOptions): Poller
    requires n <= |events|
  {
    if n == 0 then s
    else
      var before := TakeFirst(s, events, n - 1, cancelledAt, opts);
      if before.closed then before else Take(before, events[n - 1], opts, cancelledAt == Some(n - 1))
  }

  function Apply(s: Poller, step: Step, opts: WatchOptions): Poller {
    if s.closed then s
    else
      match step
      case Done => s.(closed := true)
      case Heartbeat => s.(heartbeats := s.heartbeats + [s.lastLSN])
      case FetchFails => s
      case Fetched(events, cancelledAt) => TakeFirst(s, events, |events|, cancelledAt, opts)
  }

  function Initial(opts: WatchOptions): Poller { Poller(Start(opts), [], None, false, []) }

  function Run(opts: WatchOptions, steps: seq<Step>): Poller {
    if steps == [] then Initial(opts) else Apply(Run(opts, steps[..|steps| - 1]), steps[|steps| - 1], opts)
  }

  lemma {:induction false} ClosedStays(s: Poller, events: seq<Event>, n: nat, m: nat, cancelledAt: Option<nat>, opts: WatchOptions)
    requires n <= m <= |events| && TakeFirst(s, events, n, cancelledAt, opts).closed
    ensures TakeFirst(s, events, m, cancelledAt, opts) == TakeFirst(s, events, n, cancelledAt, opts)
  {
    if n < m {
      ClosedStays(s, events, n, m - 1, cancelledAt, opts);
    }
  }

  lemma {:induction false} ClosedRunStays(opts: WatchOptions, steps: seq<Step>, n: nat)
    requires n <= |steps| && Run(opts, steps[..n]).closed
    ensures Run(opts, steps) == Run(opts, steps[..n])
    decreases |steps|
  {
    if n < |steps| {
      var before := steps[..|steps| - 1];
      assert before[..n] == steps[..n];
      ClosedRunStays(opts, before, n);
    } else {
      assert steps[..n] == steps;
    }
  }

  /** `pollChanges`. The channel is the sequence of delivered events. */
  method PollChanges(opts: WatchOptions, steps: seq<Step>) returns (s: Poller)
    ensures s == Run(opts, steps)
  {
    var lastLSN := 0;
    if opts.resumeAfter > 0 {
      lastLSN := opts.resumeAfter;
    }
    var channel: seq<Event>, heartbeats: seq<int> := [], [];
    var i := 0;
    while i < |steps|
      invariant 0 <= i <= |steps|
      invariant Run(opts, steps[..i]) == Poller(lastLSN, channel, None, false, heartbeats)
    {
      assert steps[..i + 1][..i] == steps[..i];
      match steps[i] {
        case Done =>
          ClosedRunStays(opts, steps, i + 1);
          return Poller(lastLSN, channel, None, true, heartbeats);
        case Heartbeat =>
          heartbeats := heartbeats + [lastLSN];
        case FetchFails =>
          i := i + 1;
          continue;
        case Fetched(events, cancelledAt) =>
          ghost var start := Poller(lastLSN, channel, None, false, heartbeats);
          var k := 0;
          while k < |events|
            invariant 0 <= k <= |events|
            invariant TakeFirst(start, events, k, cancelledAt, opts) == Poller(lastLSN, channel, None, false, heartbeats)
          {
            var event := events[k];
            if event.lsn > lastLSN {
              lastLSN := event.lsn;
            }
            if ShouldInclude(event, opts) {
              if cancelledAt == Some(k) {
                s := Poller(lastLSN, channel, Some(event), true, heartbeats);
                assert TakeFirst(start, events, k + 1, cancelledAt, opts) == s;
                ClosedStays(start, events, k + 1, |events|, cancelledAt, opts);
                ClosedRunStays(opts, steps, i + 1);
                return;
              }
              channel := channel + [event];
            }
            k := k + 1;
          }
      }
      i := i + 1;
    }
    assert steps[..i] == steps;
    s := Poller(lastLSN, channel, None, false, heartbeats);
  }

  // ---------- the server ----------

  predicate Increasing(log: seq<Event>) { forall i, j :: 0 <= i < j < |log| ==> log[i].lsn < log[j].lsn }

  /** How many entries lie at or below an LSN. */
  function CountUpTo(log: seq<Event>, lsn: int): (n: nat)
    ensures n <= |log|
  {
    if log == [] then 0
    else CountUpTo(log[..|log| - 1], lsn) + (if log[|log| - 1].lsn <= lsn then 1 else 0)
  }

  /** The entries behind an LSN. */
  function After(log: seq<Event>, lsn: int): seq<Event> {
    if log == [] then []
    else
      var last := log[|log| - 1];
      if last.lsn > lsn then After(log[..|log| - 1], lsn) + [last] else After(log[..|log| - 1], lsn)
  }

  /** The entries between two LSNs, the upper one included, that the watcher asked for. */
  function Matching(log: seq<Event>, low: int, high: int, opts: WatchOptions): seq<Event> {
    if log == [] then []
    else
      var last := log[|log| - 1];
      var before := Matching(log[..|log| - 1], low, high, opts);
      if low < last.lsn <= high && ShouldInclude(last, opts) then before + [last] else before
  }

  /** Every fetch was answered from the log as it stood then, `sizes[i]` entries long, with the next entries
      after the LSN it was asked with. */
  predicate Served(log: seq<Event>, sizes: seq<nat>, opts: WatchOptions, steps: seq<Step>) {
    && |sizes| == |steps|
    && (forall i :: 0 <= i < |steps| ==> sizes[i] <= |log|)
    && forall i :: 0 <= i < |steps| && steps[i].Fetched? ==>
         steps[i].events <= After(log[..sizes[i]], Run(opts, steps[..i]).lastLSN)
  }

  // ---------- the log, by position ----------

  lemma {:induction false} CountIs(log: seq<Event>, lsn: int)
    requires Increasing(log)
    ensures var n := CountUpTo(log, lsn);
            && (forall i :: 0 <= i < n ==> log[i].lsn <= lsn)
            && (forall i :: n <= i < |log| ==> log[i].lsn > lsn)
    decreases |log|
  {
    if log != [] {
      var before := log[..|log| - 1];
      CountIs(before, lsn);
      assert forall i :: 0 <= i < |before| ==> before[i] == log[i];
      assert log[|log| - 1].lsn <= lsn ==> forall i :: 0 <= i < |before| ==> before[i].lsn <= lsn;
    }
  }

  lemma {:induction false} AfterIs(log: seq<Event>, lsn: int)
    requires Increasing(log)
    ensures After(log, lsn) == log[CountUpTo(log, lsn)..]
    decreases |log|
  {
    if log != [] {
      var before := log[..|log| - 1];
      AfterIs(before, lsn);
      CountIs(log, lsn);
      CountIs(before, lsn);
    }
  }

  lemma {:induction false} CountUnique(log: seq<Event>, lsn: int, n: nat)
    requires n <= |log|
    requires forall i :: 0 <= i < n ==> log[i].lsn <= lsn
    requires forall i :: n <= i < |log| ==> log[i].lsn > lsn
    ensures CountUpTo(log, lsn) == n
    decreases |log|
  {
    if log != [] {
      var m := |log| - 1;
      CountUnique(log[..m], lsn, if n == |log| then m else n);
    }
  }

  lemma CountPrefix(log: seq<Event>, n: nat, lsn: int)
    requires Increasing(log) && n <= |log|
    ensures CountUpTo(log[..n], lsn) == if n <= CountUpTo(log, lsn) then n else CountUpTo(log, lsn)
  {
    CountIs(log, lsn);
    CountUnique(log[..n], lsn, if n <= CountUpTo(log, lsn) then n else CountUpTo(log, lsn));
  }

  /** The entry behind the LSN moves it by one position. */
  lemma CountNext(log: seq<Event>, lsn: int)
    requires Increasing(log) && CountUpTo(log, lsn) < |log|
    ensures var p := CountUpTo(log, lsn);
            log[p].lsn > lsn && CountUpTo(log, log[p].lsn) == p + 1
  {
    var p := CountUpTo(log, lsn);
    CountIs(log, lsn);
    CountUnique(log, log[p].lsn, p + 1);
  }

  lemma {:induction false} MatchingSame(log: seq<Event>, low: int, high: int, higher: int, opts: WatchOptions)
    requires forall e <- log :: e.lsn <= high <==> e.lsn <= higher
    ensures Matching(log, low, high, opts) == Matching(log, low, higher, opts)
    decreases |log|
  {
    if log != [] {
      assert log[|log| - 1] in log;
      MatchingSame(log[..|log| - 1], low, high, higher, opts);
    }
  }

  lemma {:induction false} MatchingStep(log: seq<Event>, low: int, high: int, p: nat, opts: WatchOptions)
    requires Increasing(log) && low <= high && p < |log|
    requires log[p].lsn > high && forall i :: 0 <= i < p ==> log[i].lsn <= high
    ensures Matching(log, low, log[p].lsn, opts) ==
            Matching(log, low, high, opts) + (if ShouldInclude(log[p], opts) then [log[p]] else [])
    decreases |log|
  {
    var n := |log| - 1;
    if p == n {
      MatchingSame(log[..n], low, high, log[p].lsn, opts);
    } else {
      MatchingStep(log[..n], low, high, p, opts);
    }
  }

  // ---------- delivery ----------

  /** What was delivered, and the event in hand when the poller stopped. */
  function Handed(s: Poller): seq<Event> {
    match s.inHand
    case None => s.delivered
    case Some(e) => s.delivered + [e]
  }

  predicate Inv(log: seq<Event>, opts: WatchOptions, s: Poller) {
    && Start(opts) <= s.lastLSN
    && Handed(s) == Matching(log, Start(opts), s.lastLSN, opts)
    && (s.inHand.Some? ==> s.closed)
  }

  lemma TakeKeeps(log: seq<Event>, opts: WatchOptions, s: Poller, p: nat, cancelled: bool)
    requires Increasing(log) && Inv(log, opts, s) && !s.closed && p == CountUpTo(log, s.lastLSN) < |log|
    ensures var after := Take(s, log[p], opts, cancelled);
            Inv(log, opts, after) && CountUpTo(log, after.lastLSN) == p + 1
  {
    CountIs(log, s.lastLSN);
    CountNext(log, s.lastLSN);
    MatchingStep(log, Start(opts), s.lastLSN, p, opts);
  }

  lemma {:induction false} TakeFirstKeeps(
    log: seq<Event>, opts: WatchOptions, s: Poller, events: seq<Event>, n: nat, cancelledAt: Option<nat>)
    requires Increasing(log) && Inv(log, opts, s) && !s.closed && n <= |events|
    requires var p := CountUpTo(log, s.lastLSN); p + |events| <= |log| && events == log[p..p + |events|]
    ensures var after := TakeFirst(s, events, n, cancelledAt, opts);
            Inv(log, opts, after) && (!after.closed ==> CountUpTo(log, after.lastLSN) == CountUpTo(log, s.lastLSN) + n)
  {
    if n > 0 {
      TakeFirstKeeps(log, opts, s, events, n - 1, cancelledAt);
      var before := TakeFirst(s, events, n - 1, cancelledAt, opts);
      if !before.closed {
        TakeKeeps(log, opts, before, CountUpTo(log, before.lastLSN), cancelledAt == Some(n - 1));
      }
    }
  }

  lemma BlockIsSlice(log: seq<Event>, size: nat, lsn: int, events: seq<Event>)
    requires Increasing(log) && size <= |log| && events <= After(log[..size], lsn)
    ensures var p := CountUpTo(log, lsn); p + |events| <= |log| && events == log[p..p + |events|]
  {
    AfterIs(log[..size], lsn);
    CountPrefix(log, size, lsn);
    var p := CountUpTo(log, lsn);
    if events != [] {
      assert events == log[..size][p..][..|events|];
    }
  }

  lemma {:induction false} MatchingEmpty(log: seq<Event>, lsn: int, opts: WatchOptions)
    ensures Matching(log, lsn, lsn, opts) == []
    decreases |log|
  {
    if log != [] {
      MatchingEmpty(log[..|log| - 1], lsn, opts);
    }
  }

  lemma ApplyKeeps(log: seq<Event>, size: nat, opts: WatchOptions, s: Poller, step: Step)
    requires Increasing(log) && Inv(log, opts, s) && size <= |log|
    requires step.Fetched? ==> step.events <= After(log[..size], s.lastLSN)
    ensures Inv(log, opts, Apply(s, step, opts))
  {
    if step.Fetched? && !s.closed {
      BlockIsSlice(log, size, s.lastLSN, step.events);
      TakeFirstKeeps(log, opts, s, step.events, |step.events|, step.cancelledAt);
    }
  }

  /** Everything the watcher asked for between the start and lastLSN is delivered once and in log order; only
      the event being handed over at a cancellation can be missing. */
  lemma {:induction false} DeliveredExactlyOnce(log: seq<Event>, sizes: seq<nat>, opts: WatchOptions, steps: seq<Step>)
    requires Increasing(log) && Served(log, sizes, opts, steps)
    ensures Inv(log, opts, Run(opts, steps))
    decreases |steps|
  {
    if steps == [] {
      MatchingEmpty(log, Start(opts), opts);
    } else {
      var n := |steps| - 1;
      assert forall i | 0 <= i < n :: steps[..n][..i] == steps[..i];
      DeliveredExactlyOnce(log, sizes[..n], opts, steps[..n]);
      ApplyKeeps(log, sizes[n], opts, Run(opts, steps[..n]), steps[n]);
    }
  }

  lemma {:induction false} MatchingHas(log: seq<Event>, low: int, high: int, opts: WatchOptions, e: Event)
    ensures e in Matching(log, low, high, opts) <==> e in log && low < e.lsn <= high && ShouldInclude(e, opts)
    decreases |log|
  {
    if log != [] {
      var n := |log| - 1;
      MatchingHas(log[..n], low, high, opts, e);
      assert log == log[..n] + [log[n]];
    }
  }

  lemma {:induction false} MatchingIncreases(log: seq<Event>, low: int, high: int, opts: WatchOptions)
    requires Increasing(log)
    ensures Increasing(Matching(log, low, high, opts))
    decreases |log|
  {
    if log != [] {
      var n := |log| - 1;
      var before := Matching(log[..n], low, high, opts);
      MatchingIncreases(log[..n], low, high, opts);
      forall i | 0 <= i < |before| ensures before[i].lsn < log[n].lsn {
        MatchingHas(log[..n], low, high, opts, before[i]);
        var k :| 0 <= k < n && log[..n][k] == before[i];
        assert log[k].lsn < log[n].lsn;
      }
    }
  }

  /** No gap and no duplicate: an entry is handed over exactly when it was asked for and lies between the start
      and lastLSN, and the LSNs handed over strictly increase. */
  lemma NoGapNoDuplicate(log: seq<Event>, sizes: seq<nat>, opts: WatchOptions, steps: seq<Step>, e: Event)
    requires Increasing(log) && Served(log, sizes, opts, steps)
    ensures var s := Run(opts, steps);
            && (e in Handed(s) <==>
                  && e in log && Start(opts) < e.lsn <= s.lastLSN
                  && (opts.operationTypes == [] || e.operation in opts.operationTypes))
            && Increasing(Handed(s))
  {
    DeliveredExactlyOnce(log, sizes, opts, steps);
    var high := Run(opts, steps).lastLSN;
    MatchingHas(log, Start(opts), high, opts, e);
    MatchingIncreases(log, Start(opts), high, opts);
  }

  /** Nothing is missing exactly when the poller did not stop with an event in hand. */
  lemma AllDeliveredIff(log: seq<Event>, sizes: seq<nat>, opts: WatchOptions, steps: seq<Step>)
    requires Increasing(log) && Served(log, sizes, opts, steps)
    ensures var s := Run(opts, steps);
            s.delivered == Matching(log, Start(opts), s.lastLSN, opts) <==> s.inHand.None?
  {
    DeliveredExactlyOnce(log, sizes, opts, steps);
  }

  // ---------- resuming ----------

  lemma {:induction false} MatchingCut(log: seq<Event>, low: int, high: int, opts: WatchOptions, k: nat)
    requires Increasing(log) && k < |Matching(log, low, high, opts)|
    ensures var all := Matching(log, low, high, opts); all[..k + 1] == Matching(log, low, all[k].lsn, opts)
    decreases |log|
  {
    var n := |log| - 1;
    var all, before := Matching(log, low, high, opts), Matching(log[..n], low, high, opts);
    MatchingHas(log, low, high, opts, all[k]);
    if k < |before| {
      MatchingCut(log[..n], low, high, opts, k);
      MatchingHas(log[..n], low, high, opts, before[k]);
      var i :| 0 <= i < n && log[..n][i] == before[k];
      assert log[i].lsn < log[n].lsn;
      assert all[..k + 1] == before[..k + 1];
    } else {
      MatchingSame(log[..n], low, high, log[n].lsn, opts) by {
        forall e | e in log[..n] ensures e.lsn < log[n].lsn <= high {
          var i :| 0 <= i < n && log[..n][i] == e;
          assert log[i].lsn < log[n].lsn;
        }
      }
      assert all[..k + 1] == all;
    }
  }

  lemma {:induction false} MatchingJoins(log: seq<Event>, low: int, middle: int, high: int, opts: WatchOptions)
    requires Increasing(log) && low <= middle <= high
    ensures Matching(log, low, middle, opts) + Matching(log, middle, high, opts) == Matching(log, low, high, opts)
    decreases |log|
  {
    if log != [] {
      var n := |log| - 1;
      MatchingJoins(log[..n], low, middle, high, opts);
      if log[n].lsn <= middle {
        MatchingHigh(log[..n], middle, high, opts) by {
          forall e | e in log[..n] ensures e.lsn <= middle {
            var i :| 0 <= i < n && log[..n][i] == e;
            assert log[i].lsn < log[n].lsn;
          }
        }
      }
    }
  }

  lemma {:induction false} MatchingHigh(log: seq<Event>, low: int, high: int, opts: WatchOptions)
    requires forall e <- log :: e.lsn <= low
    ensures Matching(log, low, high, opts) == []
    decreases |log|
  {
    if log != [] {
      assert log[|log| - 1] in log;
      MatchingHigh(log[..|log| - 1], low, high, opts);
    }
  }

  /** A watcher that resumes after the last event it received gets what is missing and nothing twice, also
      when the first watch was cancelled with an event in hand. */
  lemma ResumeIsSeamless(
    log: seq<Event>, opts: WatchOptions, sizes: seq<nat>, steps: seq<Step>, moreSizes: seq<nat>, moreSteps: seq<Step>)
    requires Increasing(log) && Served(log, sizes, opts, steps) && Run(opts, steps).delivered != []
    requires var first := Run(opts, steps).delivered;
             Served(log, moreSizes, opts.(resumeAfter := first[|first| - 1].lsn), moreSteps)
    ensures var first := Run(opts, steps).delivered;
            var second := Run(opts.(resumeAfter := first[|first| - 1].lsn), moreSteps);
            first + Handed(second) == Matching(log, Start(opts), second.lastLSN, opts)
  {
    var s := Run(opts, steps);
    var first := s.delivered;
    var low, middle := Start(opts), first[|first| - 1].lsn;
    DeliveredExactlyOnce(log, sizes, opts, steps);
    var all := Matching(log, low, s.lastLSN, opts);
    assert first == all[..|first|];
    MatchingCut(log, low, s.lastLSN, opts, |first| - 1);
    MatchingHas(log, low, s.lastLSN, opts, all[|first| - 1]);
    var resumed := opts.(resumeAfter := middle);
    DeliveredExactlyOnce(log, moreSizes, resumed, moreSteps);
    var high := Run(resumed, moreSteps).lastLSN;
    SameTypes(log, middle, high, opts, resumed);
    MatchingJoins(log, low, middle, high, opts);
  }

  lemma {:induction false} SameTypes(log: seq<Event>, low: int, high: int, opts: WatchOptions, other: WatchOptions)
    requires opts.operationTypes == other.operationTypes
    ensures Matching(log, low, high, opts) == Matching(log, low, high, other)
    decreases |log|
  {
    if log != [] {
      SameTypes(log[..|log| - 1], low, high, opts, other);
    }
  }

  // ---------- whatever the server does ----------

  lemma {:induction false} TakeFirstGrows(s: Poller, events: seq<Event>, n: nat, cancelledAt: Option<nat>, opts: WatchOptions)
    requires n <= |events|
    ensures var after := TakeFirst(s, events, n, cancelledAt, opts);
            s.lastLSN <= after.lastLSN && s.delivered <= after.delivered
  {
    if n > 0 {
      TakeFirstGrows(s, events, n - 1, cancelledAt, opts);
    }
  }

  /** lastLSN never goes back and nothing delivered is taken back. */
  lemma {:induction false} RunGrows(opts: WatchOptions, steps: seq<Step>, n: nat)
    requires n <= |steps|
    ensures Run(opts, steps[..n]).lastLSN <= Run(opts, steps).lastLSN
    ensures Run(opts, steps[..n]).delivered <= Run(opts, steps).delivered
    decreases |steps|
  {
    if n < |steps| {
      var m := |steps| - 1;
      RunGrows(opts, steps[..m], n);
      assert steps[..m][..n] == steps[..n];
      if steps[m].Fetched? {
        TakeFirstGrows(Run(opts, steps[..m]), steps[m].events, |steps[m].events|, steps[m].cancelledAt, opts);
      }
    } else {
      assert steps[..n] == steps;
    }
  }

  /** The events that were asked for. */
  function Wanted(events: seq<Event>, opts: WatchOptions): seq<Event> {
    if events == [] then []
    else
      var n := |events| - 1;
      Wanted(events[..n], opts) + (if ShouldInclude(events[n], opts) then [events[n]] else [])
  }

  /** How many events of a block are looked at: a cancellation is seen when an event is handed over. */
  function Looked(events: seq<Event>, cancelledAt: Option<nat>, opts: WatchOptions): (n: nat)
    ensures n <= |events|
  {
    match cancelledAt
    case None => |events|
    case Some(k) => if k < |events| && ShouldInclude(events[k], opts) then k + 1 else |events|
  }

  /** All events the poller looks at, answer after answer. */
  function Seen(opts: WatchOptions, steps: seq<Step>): seq<Event> {
    if steps == [] then []
    else
      var n := |steps| - 1;
      var before := Seen(opts, steps[..n]);
      if Run(opts, steps[..n]).closed || !steps[n].Fetched? then before
      else before + steps[n].events[..Looked(steps[n].events, steps[n].cancelledAt, opts)]
  }

  lemma WantedSnoc(events: seq<Event>, e: Event, opts: WatchOptions)
    ensures Wanted(events + [e], opts) == Wanted(events, opts) + (if ShouldInclude(e, opts) then [e] else [])
  {
    assert (events + [e])[..|events|] == events;
  }

  lemma {:induction false} WantedAppend(a: seq<Event>, b: seq<Event>, opts: WatchOptions)
    ensures Wanted(a + b, opts) == Wanted(a, opts) + Wanted(b, opts)
    decreases |b|
  {
    if b == [] {
      assert a + b == a;
    } else {
      var n := |b| - 1;
      WantedAppend(a, b[..n], opts);
      assert a + b == (a + b[..n]) + [b[n]];
      WantedSnoc(a + b[..n], b[n], opts);
    }
  }

  lemma TakeHands(s: Poller, e: Event, opts: WatchOptions, cancelled: bool)
    requires !s.closed && s.inHand.None?
    ensures var after := Take(s, e, opts, cancelled);
            && Handed(after) == Handed(s) + (if ShouldInclude(e, opts) then [e] else [])
            && (after.inHand.Some? <==> after.closed) && (after.closed <==> cancelled && ShouldInclude(e, opts))
  {}

  lemma WantedMore(handed: seq<Event>, events: seq<Event>, n: nat, opts: WatchOptions)
    requires n < |events|
    ensures (handed + Wanted(events[..n], opts)) + (if ShouldInclude(events[n], opts) then [events[n]] else [])
         == handed + Wanted(events[..n + 1], opts)
  {
    assert events[..n + 1] == events[..n] + [events[n]];
    WantedSnoc(events[..n], events[n], opts);
  }

  lemma LookedOpen(events: seq<Event>, n: nat, cancelledAt: Option<nat>, opts: WatchOptions)
    requires n < Looked(events, cancelledAt, opts)
    ensures !(n > 0 && cancelledAt == Some(n - 1) && ShouldInclude(events[n - 1], opts))
  {}

  /** Before a cancellation takes effect, what is wanted is delivered. */
  lemma {:induction false} TakeFirstHands(s: Poller, events: seq<Event>, n: nat, cancelledAt: Option<nat>, opts: WatchOptions)
    requires !s.closed && s.inHand.None? && n <= Looked(events, cancelledAt, opts)
    ensures var after := TakeFirst(s, events, n, cancelledAt, opts);
            && Handed(after) == Handed(s) + Wanted(events[..n], opts)
            && (after.inHand.Some? <==> after.closed)
            && (after.closed ==> n > 0 && cancelledAt == Some(n - 1) && ShouldInclude(events[n - 1], opts))
  {
    if n > 0 {
      TakeFirstHands(s, events, n - 1, cancelledAt, opts);
      var before := TakeFirst(s, events, n - 1, cancelledAt, opts);
      LookedOpen(events, n - 1, cancelledAt, opts);
      assert TakeFirst(s, events, n, cancelledAt, opts) == Take(before, events[n - 1], opts, cancelledAt == Some(n - 1));
      TakeHands(before, events[n - 1], opts, cancelledAt == Some(n - 1));
      WantedMore(Handed(s), events, n - 1, opts);
    }
  }

  lemma BlockHands(s: Poller, events: seq<Event>, cancelledAt: Option<nat>, opts: WatchOptions)
    requires !s.closed && s.inHand.None?
    ensures var after := TakeFirst(s, events, |events|, cancelledAt, opts);
            && Handed(after) == Handed(s) + Wanted(events[..Looked(events, cancelledAt, opts)], opts)
            && (after.inHand.Some? ==> after.closed)
  {
    var n := Looked(events, cancelledAt, opts);
    TakeFirstHands(s, events, n, cancelledAt, opts);
    if n < |events| {
      TakeFirstHands(s, events, n - 1, cancelledAt, opts);
      ClosedStays(s, events, n, |events|, cancelledAt, opts);
    }
  }

  /** For an arbitrary server: what is handed over is the concatenation of its answers, up to the end or the
      cancellation, without what was not asked for. */
  lemma {:induction false} HandedIsAnswers(opts: WatchOptions, steps: seq<Step>)
    ensures Handed(Run(opts, steps)) == Wanted(Seen(opts, steps), opts)
    ensures Run(opts, steps).inHand.Some? ==> Run(opts, steps).closed
    decreases |steps|
  {
    if steps != [] {
      var n := |steps| - 1;
      var before := Run(opts, steps[..n]);
      HandedIsAnswers(opts, steps[..n]);
      if !before.closed && steps[n].Fetched? {
        BlockHands(before, steps[n].events, steps[n].cancelledAt, opts);
        WantedAppend(Seen(opts, steps[..n]), steps[n].events[..Looked(steps[n].events, steps[n].cancelledAt, opts)], opts);
      }
    }
  }

  predicate Repeats(events: seq<Event>, e: Event) {
    exists i, j :: 0 <= i < j < |events| && events[i] == e && events[j] == e
  }

  lemma {:induction false} WantedHas(events: seq<Event>, opts: WatchOptions, e: Event)
    ensures e in Wanted(events, opts) <==> e in events && ShouldInclude(e, opts)
    decreases |events|
  {
    if events != [] {
      var n := |events| - 1;
      WantedHas(events[..n], opts, e);
      assert events == events[..n] + [events[n]];
    }
  }

  lemma RepeatsSnoc(events: seq<Event>, last: Event, e: Event)
    ensures Repeats(events + [last], e) <==> Repeats(events, e) || (last == e && e in events)
  {
    var all := events + [last];
    if Repeats(events, e) {
      var i, j :| 0 <= i < j < |events| && events[i] == e && events[j] == e;
      assert all[i] == e && all[j] == e;
    }
    if last == e && e in events {
      var i :| 0 <= i < |events| && events[i] == e;
      assert all[i] == e && all[|events|] == e;
    }
    if Repeats(all, e) {
      var i, j :| 0 <= i < j < |all| && all[i] == e && all[j] == e;
      assert events[i] == e;
      assert j < |events| ==> events[j] == e;
    }
  }

  lemma {:induction false} WantedRepeats(events: seq<Event>, opts: WatchOptions, e: Event)
    ensures Repeats(Wanted(events, opts), e) <==> Repeats(events, e) && ShouldInclude(e, opts)
    decreases |events|
  {
    if events != [] {
      var n := |events| - 1;
      WantedRepeats(events[..n], opts, e);
      WantedHas(events[..n], opts, e);
      var before, last := events[..n], events[n];
      assert events == before + [last];
      WantedSnoc(before, last, opts);
      RepeatsSnoc(before, last, e);
      RepeatsSnoc(Wanted(before, opts), last, e);
      assert Wanted(before, opts) + [] == Wanted(before, opts);
    }
  }

  /** The poller filters no duplicates: an event is handed over twice exactly when it was asked for and the
      answers of the server hold it twice. */
  lemma DuplicateIff(opts: WatchOptions, steps: seq<Step>, e: Event)
    ensures
      Repeats(Handed(Run(opts, steps)), e) <==>
        Repeats(Seen(opts, steps), e) && (opts.operationTypes == [] || e.operation in opts.operationTypes)
  {
    HandedIsAnswers(opts, steps);
    WantedRepeats(Seen(opts, steps), opts, e);
  }

  lemma SeenTwo(opts: WatchOptions, first: seq<Event>, second: seq<Event>)
    ensures Seen(opts, [Fetched(first, None), Fetched(second, None)]) == first + second
  {
    var steps := [Fetched(first, None), Fetched(second, None)];
    assert steps[..1] == [steps[0]] && steps[..1][..0] == [];
    assert Run(opts, steps[..1]) == Apply(Initial(opts), steps[0], opts);
    NotCancelled(Initial(opts), first, |first|, opts);
    assert Seen(opts, steps[..1][..0]) == [] && [] + first[..|first|] == first;
    assert Seen(opts, steps[..1]) == first;
    assert second[..|second|] == second;
  }

  lemma {:induction false} NotCancelled(s: Poller, events: seq<Event>, n: nat, opts: WatchOptions)
    requires !s.closed && n <= |events|
    ensures !TakeFirst(s, events, n, None, opts).closed
  {
    if n > 0 {
      NotCancelled(s, events, n - 1, opts);
    }
  }

  /** A server that gives an answer again has all of it delivered again. */
  lemma RepeatedAnswerIsDeliveredTwice(events: seq<Event>, opts: WatchOptions, e: Event)
    requires e in events && ShouldInclude(e, opts)
    ensures Repeats(Handed(Run(opts, [Fetched(events, None), Fetched(events, None)])), e)
  {
    SeenTwo(opts, events, events);
    var i :| 0 <= i < |events| && events[i] == e;
    assert (events + events)[i] == e && (events + events)[|events| + i] == e;
    DuplicateIff(opts, [Fetched(events, None), Fetched(events, None)], e);
  }
}
