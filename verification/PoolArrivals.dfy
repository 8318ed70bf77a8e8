/** How connections come to the pool of node/src/pool.js. */
module PoolArrivals {
  // What becomes of the attempts to connect, for an `acquire` and for the warm-up, in every run.

  import opened Pool
  import opened PoolAnswers

  /** A number that stands for nobody in the pool. */
  ghost predicate IsNew(s: State, x: nat) {
    && x !in s.out && x !in s.creating && x !in s.warming && x !in s.waitQueue
    && forall i :: 0 <= i < |s.idle| ==> s.idle[i].client != x
  }

  // ---------- numbers are used once ----------

  lemma {:induction false} TakeIdleWarming(s: State)
    ensures TakeIdle(s).0.warming == s.warming
    decreases |s.idle|
  {
    if s.idle != [] && s.idle[|s.idle| - 1].client in s.dead {
      TakeIdleWarming(Destroy(WithoutLast(s), s.idle[|s.idle| - 1].client));
    }
  }

  lemma WarmupBelow(c: Config, s: State)
    requires Below(s.warming, s.nextId)
    ensures Below(Warmup(c, s).warming, Warmup(c, s).nextId)
  {
    NumbersAre(s.nextId, Missing(c, s.total));
  }

  lemma AcquireWarming(c: Config, s: State)
    ensures Acquire(c, s).0.warming == s.warming && Acquire(c, s).0.nextId >= s.nextId
  {
    TakeIdleWarming(s);
    TakeIdleElsewhere(s);
    hide TakeIdle;
  }

  lemma EndsWarming(c: Config, s: State)
    ensures Drain(s).warming == s.warming && Drain(s).nextId == s.nextId
    ensures Close(s).warming == s.warming && Close(s).nextId == s.nextId
  {
    hide Clients, TimedIdle, Members, TurnAll;
  }

  lemma TimersWarming(s: State, id: nat)
    ensures WaiterTimedOut(s, id).warming == s.warming && WaiterTimedOut(s, id).nextId == s.nextId
    ensures IdleTimedOut(s, id).warming == s.warming && IdleTimedOut(s, id).nextId == s.nextId
  {
    hide Where;
  }

  lemma ApplyBelow(c: Config, s: State, step: Step)
    requires Below(s.warming, s.nextId)
    ensures Below(Apply(c, s, step).warming, Apply(c, s, step).nextId)
  {
    hide Acquire, Drain, Close, WaiterTimedOut, IdleTimedOut, Warmup, Alive, TimedDead;
    match step {
      case DoAcquire => AcquireWarming(c, s);
      case DoDrain => EndsWarming(c, s);
      case DoClose => EndsWarming(c, s);
      case DoWaiterTimer(waiter) => TimersWarming(s, waiter);
      case DoIdleTimer(client) => TimersWarming(s, client);
      case DoWarmup => WarmupBelow(c, s);
      case DoHealthTick => WarmupBelow(c, Swept(s));
      case _ =>
    }
  }

  lemma {:induction false} RunBelow(c: Config, s: State, steps: seq<Step>)
    requires Below(s.warming, s.nextId)
    ensures Below(Run(c, s, steps).warming, Run(c, s, steps).nextId)
    decreases |steps|
  {
    if steps != [] {
      ApplyBelow(c, s, steps[0]);
      hide Apply;
      RunBelow(c, Apply(c, s, steps[0]), steps[1..]);
    }
  }

  lemma QueueBelow(served: seq<nat>, queue: seq<nat>, nextId: nat)
    requires Fair(served, queue, nextId)
    ensures forall i :: 0 <= i < |queue| ==> queue[i] < nextId
  {
    assert forall i :: 0 <= i < |queue| ==> (served + queue)[|served| + i] == queue[i];
  }

  lemma NextIsNew(c: Config, steps: seq<Step>, x: nat)
    requires x >= Run(c, INITIAL, steps).nextId
    ensures IsNew(Run(c, INITIAL, steps), x)
  {
    var s := Run(c, INITIAL, steps);
    PoolInvariant(c, steps);
    RunBelow(c, INITIAL, steps);
    hide Run;
    QueueBelow(Served(s.log), s.waitQueue, s.nextId);
  }

  // ---------- attempts end ----------

  /** After any run an attempt that an `acquire` began ends: with a new connection, which is checked out, or with an error,
      which frees the place that was reserved for it. Nothing else changes. */
  lemma ConnectionsArrive(c: Config, steps: seq<Step>, attempt: nat)
    requires attempt in Run(c, INITIAL, steps).creating
    ensures
      var s := Run(c, INITIAL, steps);
      var t := Apply(c, s, DoConnected(attempt));
      exists x :: IsNew(s, x) && t == s.(creating := s.creating - {attempt}, out := s.out + {x}, nextId := t.nextId)
    ensures
      var s := Run(c, INITIAL, steps);
      Apply(c, s, DoConnectFailed(attempt)) ==
        s.(creating := s.creating - {attempt}, total := s.total - 1, active := s.active - 1)
  {
    var s := Run(c, INITIAL, steps);
    NextIsNew(c, steps, s.nextId);
    hide Run, IsNew;
    var t := Apply(c, s, DoConnected(attempt));
    assert t == s.(creating := s.creating - {attempt}, out := s.out + {s.nextId}, nextId := t.nextId);
  }

  /** After any run an attempt of the warm-up ends: with a new connection at the end of the idle list, which is to be
      closed after a while if there are enough idle ones and which the pool does not count, or with nothing. */
  lemma WarmupsArrive(c: Config, steps: seq<Step>, attempt: nat)
    requires attempt in Run(c, INITIAL, steps).warming
    ensures
      var s := Run(c, INITIAL, steps);
      var t := Apply(c, s, DoWarmed(attempt));
      && |t.idle| == |s.idle| + 1 && t.idle[..|s.idle|] == s.idle
      && IsNew(s, t.idle[|s.idle|].client)
      && t.idle[|s.idle|].timed == (c.idleTimeout > 0 && |s.idle| >= c.minSize)
      && t == s.(warming := s.warming - {attempt}, idle := t.idle, idleTimers := t.idleTimers, nextId := t.nextId,
                 warmed := s.warmed + 1)
      && t.idleTimers == s.idleTimers + (if t.idle[|s.idle|].timed then {t.idle[|s.idle|].client} else {})
    ensures
      var s := Run(c, INITIAL, steps);
      Apply(c, s, DoWarmFailed(attempt)) == s.(warming := s.warming - {attempt})
  {
    NextIsNew(c, steps, Run(c, INITIAL, steps).nextId);
    hide Run, IsNew;
  }

  /** After any run a warm-up starts as many attempts as connections are missing, with new numbers, and does nothing
      else. */
  lemma WarmupStarts(c: Config, steps: seq<Step>)
    ensures
      var s := Run(c, INITIAL, steps);
      var t := Apply(c, s, DoWarmup);
      && s.warming <= t.warming && |t.warming - s.warming| == Missing(c, s.total)
      && (forall x :: x in t.warming && x !in s.warming ==> IsNew(s, x))
      && t == s.(warming := t.warming, nextId := t.nextId)
  {
    var s := Run(c, INITIAL, steps);
    RunBelow(c, INITIAL, steps);
    hide Run, IsNew, Missing;
    StartsMissing(c, s);
    StartsLater(c, s);
    hide Warmup;
    forall x | x in Warmup(c, s).warming && x !in s.warming ensures IsNew(s, x) {
      NextIsNew(c, steps, x);
    }
  }

  lemma StartsLater(c: Config, s: State)
    ensures forall x :: x in Warmup(c, s).warming && x !in s.warming ==> x >= s.nextId
  {
    NumbersAre(s.nextId, Missing(c, s.total));
    hide Numbers;
  }

  /** A lost connection is dead from then on, wherever it is; nothing else happens to the pool. */
  lemma DisconnectKills(c: Config, s: State, client: nat)
    ensures
      var t := Apply(c, s, DoDisconnect(client));
      (forall x :: x in t.dead <==> x in s.dead || x == client) && t == s.(dead := t.dead)
  {}
}
