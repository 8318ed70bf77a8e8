/** When the poller of go/vedadb/streams.go stops, and how far it got. */
module StreamProgress {
  import opened Wrappers
  import opened Streams

  // ---------- when it stops and how far it got ----------

  /** The context is done at this turn, or found to be cancelled while an event that was asked for is handed over. */
  predicate Stopping(step: Step, opts: WatchOptions) {
    || step.Done?
    || (step.Fetched? && step.cancelledAt.Some? && step.cancelledAt.value < |step.events|
        && (opts.operationTypes == [] || step.events[step.cancelledAt.value].operation in opts.operationTypes))
  }

  lemma BlockCloses(s: Poller, events: seq<Event>, cancelledAt: Option<nat>, opts: WatchOptions)
    requires !s.closed && s.inHand.None?
    ensures TakeFirst(s, events, |events|, cancelledAt, opts).closed <==> Stopping(Fetched(events, cancelledAt), opts)
  {
    var n := Looked(events, cancelledAt, opts);
    TakeFirstHands(s, events, n, cancelledAt, opts);
    if Stopping(Fetched(events, cancelledAt), opts) {
      var k := cancelledAt.value;
      TakeFirstHands(s, events, k, cancelledAt, opts);
      assert TakeFirst(s, events, k + 1, cancelledAt, opts).closed;
      ClosedStays(s, events, k + 1, |events|, cancelledAt, opts);
    }
  }

  lemma StoppingSnoc(steps: seq<Step>, last: Step, opts: WatchOptions)
    ensures
      (exists step <- steps + [last] :: Stopping(step, opts)) <==>
        (exists step <- steps :: Stopping(step, opts)) || Stopping(last, opts)
  {
    hide Stopping;
    assert last in steps + [last];
    assert forall step <- steps :: step in steps + [last];
  }

  lemma ClosesNext(opts: WatchOptions, steps: seq<Step>, last: Step)
    ensures Run(opts, steps + [last]).closed <==> Run(opts, steps).closed || Stopping(last, opts)
  {
    var before := Run(opts, steps);
    assert (steps + [last])[..|steps|] == steps;
    HandedIsAnswers(opts, steps);
    if !before.closed && last.Fetched? {
      BlockCloses(before, last.events, last.cancelledAt, opts);
    }
  }

  /** The poller stops when its context is done and for no other reason: errors of the server only delay it. */
  lemma {:induction false} ClosesIff(opts: WatchOptions, steps: seq<Step>)
    ensures Run(opts, steps).closed <==> exists step <- steps :: Stopping(step, opts)
    decreases |steps|
  {
    if steps != [] {
      var before, last := steps[..|steps| - 1], steps[|steps| - 1];
      assert steps == before + [last];
      hide Run, Stopping;
      ClosesIff(opts, before);
      ClosesNext(opts, before, last);
      StoppingSnoc(before, last, opts);
    }
  }

  /** The greatest LSN among those of some events and a first one. */
  function Greatest(first: int, events: seq<Event>): int {
    if events == [] then first
    else
      var last, before := events[|events| - 1], Greatest(first, events[..|events| - 1]);
      if last.lsn > before then last.lsn else before
  }

  lemma {:induction false} GreatestIs(first: int, events: seq<Event>)
    ensures first <= Greatest(first, events) && forall i :: 0 <= i < |events| ==> events[i].lsn <= Greatest(first, events)
    ensures Greatest(first, events) == first || exists i :: 0 <= i < |events| && events[i].lsn == Greatest(first, events)
    decreases |events|
  {
    if events != [] {
      var n := |events| - 1;
      GreatestIs(first, events[..n]);
      assert forall i :: 0 <= i < n ==> events[..n][i] == events[i];
    }
  }

  lemma GreatestSnoc(first: int, events: seq<Event>, e: Event)
    ensures Greatest(first, events + [e]) == if e.lsn > Greatest(first, events) then e.lsn else Greatest(first, events)
  {
    assert (events + [e])[..|events|] == events;
  }

  lemma {:induction false} GreatestAppend(first: int, a: seq<Event>, b: seq<Event>)
    ensures Greatest(first, a + b) == Greatest(Greatest(first, a), b)
    decreases |b|
  {
    if b == [] {
      assert a + b == a;
    } else {
      var before, last := b[..|b| - 1], b[|b| - 1];
      assert b == before + [last] && a + b == (a + before) + [last];
      GreatestSnoc(first, a + before, last);
      GreatestSnoc(Greatest(first, a), before, last);
      hide Greatest;
      GreatestAppend(first, a, before);
    }
  }

  lemma TakeReaches(s: Poller, e: Event, opts: WatchOptions, cancelled: bool)
    ensures Take(s, e, opts, cancelled).lastLSN == if e.lsn > s.lastLSN then e.lsn else s.lastLSN
  {}

  lemma {:induction false} TakeFirstReaches(s: Poller, events: seq<Event>, n: nat, cancelledAt: Option<nat>, opts: WatchOptions)
    requires !s.closed && s.inHand.None? && n <= Looked(events, cancelledAt, opts)
    ensures TakeFirst(s, events, n, cancelledAt, opts).lastLSN == Greatest(s.lastLSN, events[..n])
  {
    if n > 0 {
      var before := TakeFirst(s, events, n - 1, cancelledAt, opts);
      TakeFirstHands(s, events, n - 1, cancelledAt, opts);
      LookedOpen(events, n - 1, cancelledAt, opts);
      TakeReaches(before, events[n - 1], opts, cancelledAt == Some(n - 1));
      assert TakeFirst(s, events, n, cancelledAt, opts) == Take(before, events[n - 1], opts, cancelledAt == Some(n - 1));
      hide TakeFirst, Take, Greatest, Wanted, Handed;
      TakeFirstReaches(s, events, n - 1, cancelledAt, opts);
      assert events[..n] == events[..n - 1] + [events[n - 1]];
      GreatestSnoc(s.lastLSN, events[..n - 1], events[n - 1]);
    } else {
      assert events[..0] == [];
    }
  }

  lemma BlockReaches(s: Poller, events: seq<Event>, cancelledAt: Option<nat>, opts: WatchOptions)
    requires !s.closed && s.inHand.None?
    ensures
      TakeFirst(s, events, |events|, cancelledAt, opts).lastLSN ==
        Greatest(s.lastLSN, events[..Looked(events, cancelledAt, opts)])
  {
    var n := Looked(events, cancelledAt, opts);
    TakeFirstReaches(s, events, n, cancelledAt, opts);
    TakeFirstHands(s, events, n, cancelledAt, opts);
    if n < |events| {
      ClosedStays(s, events, n, |events|, cancelledAt, opts);
    }
  }

  /** lastLSN is the greatest LSN among those of the start and of all events looked at. */
  lemma {:induction false} ReachedIs(opts: WatchOptions, steps: seq<Step>)
    ensures Run(opts, steps).lastLSN == Greatest(if opts.resumeAfter > 0 then opts.resumeAfter else 0, Seen(opts, steps))
    decreases |steps|
  {
    if steps != [] {
      var n := |steps| - 1;
      var before := Run(opts, steps[..n]);
      ReachedIs(opts, steps[..n]);
      HandedIsAnswers(opts, steps[..n]);
      if !before.closed && steps[n].Fetched? {
        var events, cancelledAt := steps[n].events, steps[n].cancelledAt;
        BlockReaches(before, events, cancelledAt, opts);
        GreatestAppend(Start(opts), Seen(opts, steps[..n]), events[..Looked(events, cancelledAt, opts)]);
      }
    }
  }

  /** Every heartbeat before the end carries the greatest LSN looked at so far. */
  lemma HeartbeatsCarry(opts: WatchOptions, steps: seq<Step>, last: Step)
    ensures
      var before, after := Run(opts, steps), Run(opts, steps + [last]);
      after.heartbeats == before.heartbeats +
        if last.Heartbeat? && !(exists step <- steps :: Stopping(step, opts))
        then [Greatest(if opts.resumeAfter > 0 then opts.resumeAfter else 0, Seen(opts, steps))]
        else []
  {
    assert (steps + [last])[..|steps|] == steps;
    ClosesIff(opts, steps);
    ReachedIs(opts, steps);
    assert Run(opts, steps).heartbeats + [] == Run(opts, steps).heartbeats;
    if last.Fetched? {
      BeatsStay(Run(opts, steps), last.events, |last.events|, last.cancelledAt, opts);
    }
  }

  lemma {:induction false} BeatsStay(s: Poller, events: seq<Event>, n: nat, cancelledAt: Option<nat>, opts: WatchOptions)
    requires n <= |events|
    ensures TakeFirst(s, events, n, cancelledAt, opts).heartbeats == s.heartbeats
  {
    if n > 0 {
      BeatsStay(s, events, n - 1, cancelledAt, opts);
    }
  }

  lemma SeenLast(opts: WatchOptions, steps: seq<Step>, events: seq<Event>, cancelledAt: Option<nat>)
    requires !Run(opts, steps + [Fetched(events, cancelledAt)]).closed
    ensures !Run(opts, steps).closed && Run(opts, steps).inHand.None?
    ensures Run(opts, steps + [Fetched(events, cancelledAt)]).lastLSN == Greatest(Run(opts, steps).lastLSN, events)
  {
    var before, all := Run(opts, steps), steps + [Fetched(events, cancelledAt)];
    assert all[..|steps|] == steps;
    HandedIsAnswers(opts, steps);
    BlockReaches(before, events, cancelledAt, opts);
    BlockCloses(before, events, cancelledAt, opts);
    assert events[..|events|] == events;
  }

  /** Once a fetch has brought all there is in the log, everything in it that was asked for and lies behind the start is
      delivered. */
  lemma CaughtUp(log: seq<Event>, sizes: seq<nat>, opts: WatchOptions, steps: seq<Step>, last: Step, e: Event)
    requires Increasing(log) && Served(log, sizes, opts, steps + [last]) && !Run(opts, steps + [last]).closed
    requires last.Fetched? && last.events == After(log[..sizes[|steps|]], Run(opts, steps).lastLSN)
    requires e in log[..sizes[|steps|]]
    ensures
      e in Run(opts, steps + [last]).delivered <==>
        && (if opts.resumeAfter > 0 then opts.resumeAfter else 0) < e.lsn
        && (opts.operationTypes == [] || e.operation in opts.operationTypes)
  {
    var visible, low := log[..sizes[|steps|]], Run(opts, steps).lastLSN;
    SeenLast(opts, steps, last.events, last.cancelledAt);
    HandedIsAnswers(opts, steps + [last]);
    NoGapNoDuplicate(log, sizes, opts, steps + [last], e);
    assert e in log && last == Fetched(last.events, last.cancelledAt);
    hide Run, Served, Greatest, After, Seen, Wanted;
    Reached(visible, low, e);
  }

  /** Whatever the log holds is reached when all behind the LSN is taken. */
  lemma Reached(log: seq<Event>, low: int, e: Event)
    requires Increasing(log) && e in log
    ensures e.lsn <= Greatest(low, After(log, low))
  {
    AfterIs(log, low);
    CountIs(log, low);
    GreatestIs(low, After(log, low));
    hide Greatest, After, CountUpTo;
    var i :| 0 <= i < |log| && log[i] == e;
    if i >= CountUpTo(log, low) {
      assert After(log, low)[i - CountUpTo(log, low)] == e;
    }
  }
}
